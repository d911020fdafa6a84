/**
 What the list of outcomes of `LuaPattern` stands for: a way through a pattern is a choice of how often
 each of its single-character items is repeated. The outcomes are those of all ways through, and the
 first of them is that of the most preferred way.
 */
module LuaChoices {
  import opened LuaPattern

  predicate Admits(rep: Rep, n: nat) { Least(rep) <= n && (rep == Once || rep == Optional ==> n <= 1) }

  /** With the repetitions `cs`, one for each single-character item, matching has the outcome `o`. */
  predicate Reaches(src: seq<Byte>, pat: seq<Byte>, p: nat, s: nat, caps: seq<Cap>, cs: seq<nat>, o: Outcome)
    requires p <= |pat| && Fits(src, caps, s)
    decreases |pat| - p
  {
    match Advance(src, pat, p, s, caps)
    case Stop(os) => cs == [] && os == [o]
    case Go(next, s', caps') => Reaches(src, pat, next, s', caps', cs, o)
    case Choose(set', rep, next) =>
      && cs != [] && Admits(rep, cs[0]) && s + cs[0] <= |src| && (forall k :: s <= k < s + cs[0] ==> Fit(src, k, set'))
      && Reaches(src, pat, next, s + cs[0], caps, cs[1..], o)
  }

  /** The choice `cs` is tried before `ds`, or they are the same: more repetitions come first, except after `-`. */
  predicate Prefers(pat: seq<Byte>, p: nat, cs: seq<nat>, ds: seq<nat>)
    requires p <= |pat|
    decreases |pat| - p
  {
    var x := ItemAt(pat, p);
    if !Continues(x) || cs == [] || ds == [] then cs == ds
    else if !x.One? then Prefers(pat, x.next, cs, ds)
    else if cs[0] == ds[0] then Prefers(pat, x.next, cs[1..], ds[1..])
    else if x.rep == Minus then cs[0] < ds[0] else cs[0] > ds[0]
  }

  lemma RunIs(src: seq<Byte>, s: nat, set': Set, rep: Rep, n: nat)
    requires s <= |src|
    ensures var m := RunLength(src, s, set');
            Least(rep) <= n <= Most(rep, m) <==> Admits(rep, n) && s + n <= |src| && forall k :: s <= k < s + n ==>
              Fit(src, k, set')
  {
    var m := RunLength(src, s, set');
    if n > m && s + n <= |src| { assert !Fit(src, s + m, set'); }
  }

  /** The outcomes with a number of repetitions between `lo` and `hi`, whichever come first. */
  lemma {:induction false} LongestHas(src: seq<Byte>, pat: seq<Byte>, next: nat, s: nat, hi: nat, lo: nat,
                                      caps: seq<Cap>, n: nat)
    requires next <= |pat| && Fits(src, caps, s) && lo <= n <= hi && s + hi <= |src|
    ensures forall o <- Outcomes(src, pat, next, s + n, caps) :: o in Longest(src, pat, next, s, hi, lo, caps)
  {
    hide Outcomes;
    if n < hi { LongestHas(src, pat, next, s, hi - 1, lo, caps, n); }
  }

  lemma {:induction false} ShortestHas(src: seq<Byte>, pat: seq<Byte>, next: nat, s: nat, lo: nat, hi: nat,
                                       caps: seq<Cap>, n: nat)
    requires next <= |pat| && Fits(src, caps, s) && lo <= n <= hi && s + hi <= |src|
    ensures forall o <- Outcomes(src, pat, next, s + n, caps) :: o in Shortest(src, pat, next, s, lo, hi, caps)
    decreases hi - lo
  {
    hide Outcomes;
    if lo < n { ShortestHas(src, pat, next, s, lo + 1, hi, caps, n); }
  }

  lemma {:induction false} LongestFrom(src: seq<Byte>, pat: seq<Byte>, next: nat, s: nat, hi: nat, lo: nat,
                                       caps: seq<Cap>, o: Outcome) returns (n: nat)
    requires next <= |pat| && Fits(src, caps, s) && lo <= hi && s + hi <= |src|
             && o in Longest(src, pat, next, s, hi, lo, caps)
    ensures lo <= n <= hi && o in Outcomes(src, pat, next, s + n, caps)
  {
    hide Outcomes;
    n := hi;
    if o !in Outcomes(src, pat, next, s + hi, caps) { n := LongestFrom(src, pat, next, s, hi - 1, lo, caps, o); }
  }

  lemma {:induction false} ShortestFrom(src: seq<Byte>, pat: seq<Byte>, next: nat, s: nat, lo: nat, hi: nat,
                                        caps: seq<Cap>, o: Outcome) returns (n: nat)
    requires next <= |pat| && Fits(src, caps, s) && lo <= hi && s + hi <= |src|
             && o in Shortest(src, pat, next, s, lo, hi, caps)
    ensures lo <= n <= hi && o in Outcomes(src, pat, next, s + n, caps)
    decreases hi - lo
  {
    hide Outcomes;
    n := lo;
    if o !in Outcomes(src, pat, next, s + lo, caps) { n := ShortestFrom(src, pat, next, s, lo + 1, hi, caps, o); }
  }

  /** The first outcome is that of the most repetitions with any outcome at all. */
  lemma {:induction false} LongestHead(src: seq<Byte>, pat: seq<Byte>, next: nat, s: nat, hi: nat, lo: nat,
                                       caps: seq<Cap>) returns (n: nat)
    requires next <= |pat| && Fits(src, caps, s) && lo <= hi && s + hi <= |src|
             && Longest(src, pat, next, s, hi, lo, caps) != []
    ensures lo <= n <= hi && Outcomes(src, pat, next, s + n, caps) != []
            && (forall m :: n < m <= hi ==> NoOutcome(src, pat, next, s, m, caps))
    ensures Longest(src, pat, next, s, hi, lo, caps)[0] == Outcomes(src, pat, next, s + n, caps)[0]
  {
    hide Outcomes;
    n := hi;
    if Outcomes(src, pat, next, s + hi, caps) == [] { n := LongestHead(src, pat, next, s, hi - 1, lo, caps); }
  }

  lemma {:induction false} ShortestHead(src: seq<Byte>, pat: seq<Byte>, next: nat, s: nat, lo: nat, hi: nat,
                                        caps: seq<Cap>) returns (n: nat)
    requires next <= |pat| && Fits(src, caps, s) && lo <= hi && s + hi <= |src|
             && Shortest(src, pat, next, s, lo, hi, caps) != []
    ensures lo <= n <= hi && Outcomes(src, pat, next, s + n, caps) != []
            && (forall m :: lo <= m < n ==> NoOutcome(src, pat, next, s, m, caps))
    ensures Shortest(src, pat, next, s, lo, hi, caps)[0] == Outcomes(src, pat, next, s + n, caps)[0]
    decreases hi - lo
  {
    hide Outcomes;
    n := lo;
    if Outcomes(src, pat, next, s + lo, caps) == [] { n := ShortestHead(src, pat, next, s, lo + 1, hi, caps); }
  }

  predicate NoOutcome(src: seq<Byte>, pat: seq<Byte>, next: nat, s: nat, n: nat, caps: seq<Cap>) {
    next <= |pat| && Fits(src, caps, s) && s + n <= |src| ==> Outcomes(src, pat, next, s + n, caps) == []
  }

  /** Whatever a choice leads to is among the outcomes. */
  lemma {:induction false} ChoiceListed(src: seq<Byte>, pat: seq<Byte>, p: nat, s: nat, caps: seq<Cap>, cs: seq<nat>,
                                        o: Outcome)
    requires p <= |pat| && Fits(src, caps, s) && Reaches(src, pat, p, s, caps, cs, o)
    ensures o in Outcomes(src, pat, p, s, caps)
    decreases |pat| - p
  {
    hide Advance, ItemAt, RunLength, Longest, Shortest, Admits;
    match Advance(src, pat, p, s, caps)
    case Stop(os) =>
    case Go(next, s', caps') => ChoiceListed(src, pat, next, s', caps', cs, o);
    case Choose(set', rep, next) =>
      var lo, hi := Least(rep), Most(rep, RunLength(src, s, set'));
      RunIs(src, s, set', rep, cs[0]);
      ChoiceListed(src, pat, next, s + cs[0], caps, cs[1..], o);
      if rep == Minus { ShortestHas(src, pat, next, s, lo, hi, caps, cs[0]); }
        else { LongestHas(src, pat, next, s, hi, lo, caps, cs[0]); }
      assert o in Choices(src, pat, next, s, lo, hi, rep, caps);
  }

  /** Whatever is among the outcomes is what a choice leads to. */
  lemma {:induction false} ListedChoice(src: seq<Byte>, pat: seq<Byte>, p: nat, s: nat, caps: seq<Cap>, o: Outcome)
    returns (cs: seq<nat>)
    requires p <= |pat| && Fits(src, caps, s) && o in Outcomes(src, pat, p, s, caps)
    ensures Reaches(src, pat, p, s, caps, cs, o)
    decreases |pat| - p
  {
    hide Advance, ItemAt, RunLength, Longest, Shortest, Admits;
    match Advance(src, pat, p, s, caps)
    case Stop(os) => cs := [];
    case Go(next, s', caps') => cs := ListedChoice(src, pat, next, s', caps', o);
    case Choose(set', rep, next) =>
      var lo, hi := Least(rep), Most(rep, RunLength(src, s, set'));
      var n;
      if rep == Minus { n := ShortestFrom(src, pat, next, s, lo, hi, caps, o); }
        else { n := LongestFrom(src, pat, next, s, hi, lo, caps, o); }
      RunIs(src, s, set', rep, n);
      var ds := ListedChoice(src, pat, next, s + n, caps, o);
      cs := [n] + ds;
      assert cs[1..] == ds;
  }

  /** The outcomes are exactly those of all choices. */
  lemma OutcomesAreChoices(src: seq<Byte>, pat: seq<Byte>, p: nat, s: nat, caps: seq<Cap>, o: Outcome)
    requires p <= |pat| && Fits(src, caps, s)
    ensures o in Outcomes(src, pat, p, s, caps) <==> exists cs :: Reaches(src, pat, p, s, caps, cs, o)
  {
    hide Outcomes, Reaches;
    if o in Outcomes(src, pat, p, s, caps) {
      var cs := ListedChoice(src, pat, p, s, caps, o);
    }
    if cs :| Reaches(src, pat, p, s, caps, cs, o) {
      ChoiceListed(src, pat, p, s, caps, cs, o);
    }
  }

  /** The first outcome is that of a choice preferred to all others that lead anywhere. */
  lemma {:induction false} FirstChoice(src: seq<Byte>, pat: seq<Byte>, p: nat, s: nat, caps: seq<Cap>)
    returns (cs: seq<nat>)
    requires p <= |pat| && Fits(src, caps, s) && Outcomes(src, pat, p, s, caps) != []
    ensures Reaches(src, pat, p, s, caps, cs, Outcomes(src, pat, p, s, caps)[0])
    ensures forall ds, o :: Reaches(src, pat, p, s, caps, ds, o) ==> Prefers(pat, p, cs, ds)
    decreases |pat| - p
  {
    hide Advance, ItemAt, RunLength, Longest, Shortest, Admits;
    match Advance(src, pat, p, s, caps)
    case Stop(os) =>
      cs := [];
    case Go(next, s', caps') =>
      cs := FirstChoice(src, pat, next, s', caps');
      forall ds, o | Reaches(src, pat, p, s, caps, ds, o) ensures Prefers(pat, p, cs, ds) {
        assert Reaches(src, pat, next, s', caps', ds, o) && Prefers(pat, next, cs, ds);
      }
    case Choose(set', rep, next) =>
      var lo, hi := Least(rep), Most(rep, RunLength(src, s, set'));
      var n;
      if rep == Minus { n := ShortestHead(src, pat, next, s, lo, hi, caps); }
        else { n := LongestHead(src, pat, next, s, hi, lo, caps); }
      RunIs(src, s, set', rep, n);
      var ns := FirstChoice(src, pat, next, s + n, caps);
      cs := [n] + ns;
      assert cs[1..] == ns;
      forall ds, o | Reaches(src, pat, p, s, caps, ds, o) ensures Prefers(pat, p, cs, ds) {
        RunIs(src, s, set', rep, ds[0]);
        ChoiceListed(src, pat, next, s + ds[0], caps, ds[1..], o);
        assert !NoOutcome(src, pat, next, s, ds[0], caps);
      }
  }
}
