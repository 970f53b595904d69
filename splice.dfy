/** The range-replacement primitive and the sequence of replacements the
    compositor performs with it.

    An `Edit` replaces the half-open range [lo, hi) of a sequence with a block.
    Inserting before position p is the edit [p, p). The compositor applies its
    edits one after another, always addressing positions of the ORIGINAL source
    sequence, and never recomputes positions after a replacement; `Merge` is an
    independent description of the result that slices only the original
    sequence, and `ApplyIsMerge` shows the two agree when the edits come in
    descending, non-overlapping order. */
module Splice {

  datatype Edit<T> = Edit(lo: nat, hi: nat, block: seq<T>)

  /** Replace d[e.lo..e.hi) with e.block. */
  function Splice<T>(d: seq<T>, e: Edit<T>): seq<T>
    requires e.lo <= e.hi <= |d|
  {
    d[..e.lo] + e.block + d[e.hi..]
  }

  /** `array_replace_partly($src, $dest, $sf, $st, $df, $dt)`: copy dest[0..df-1],
      then src[sf..st], then dest[dt+1..]. The bounds are those under which
      every PHP `range(a, b)` the function builds has a <= b (for a > b PHP's
      range counts downward instead of being empty). */
  method ArrayReplacePartly<T>(src: seq<T>, dest: seq<T>, sf: int, st: int, df: int, dt: int)
    returns (res: seq<T>)
    requires 0 <= sf <= st < |src|
    requires 1 <= df <= dt + 1 <= |dest| - 1
    ensures |res| == |dest| - (dt - df + 1) + (st - sf + 1)
    ensures res[..df] == dest[..df]
    ensures res[df..df + st - sf + 1] == src[sf..st + 1]
    ensures res[df + st - sf + 1..] == dest[dt + 1..]
    ensures res == Splice(dest, Edit(df, dt + 1, src[sf..st + 1]))
  {
    res := [];
    var i := 0;
    while i <= df - 1
      invariant 0 <= i <= df
      invariant res == dest[..i]
    {
      res := res + [dest[i]];
      i := i + 1;
    }
    i := sf;
    while i <= st
      invariant sf <= i <= st + 1
      invariant res == dest[..df] + src[sf..i]
    {
      res := res + [src[i]];
      i := i + 1;
    }
    i := dt + 1;
    while i <= |dest| - 1
      invariant dt + 1 <= i <= |dest|
      invariant res == dest[..df] + src[sf..st + 1] + dest[dt + 1..i]
    {
      res := res + [dest[i]];
      i := i + 1;
    }
    assert dest[dt + 1..|dest|] == dest[dt + 1..];
  }

  /** An edit fits a sequence of length n: the range lies inside it and the
      block is at least as long as what it replaces, so applying it never
      shortens the sequence. */
  ghost predicate Fits<T>(e: Edit<T>, n: nat) {
    e.lo <= e.hi <= n && e.hi - e.lo <= |e.block|
  }

  ghost predicate AllFit<T>(es: seq<Edit<T>>, n: nat) {
    forall i :: 0 <= i < |es| ==> Fits(es[i], n)
  }

  /** How much the edits lengthen the sequence. */
  function Growth<T>(es: seq<Edit<T>>): int {
    if es == [] then 0
    else Growth(es[..|es| - 1]) + |es[|es| - 1].block| - (es[|es| - 1].hi - es[|es| - 1].lo)
  }

  lemma {:induction false} GrowthOfFits<T>(es: seq<Edit<T>>, n: nat)
    requires AllFit(es, n)
    ensures Growth(es) >= 0
    decreases |es|
  {
    if es != [] {
      GrowthOfFits(es[..|es| - 1], n);
    }
  }

  /** Apply the edits in order, each to the result of the previous ones,
      at the positions the edit names. */
  function Apply<T>(s: seq<T>, es: seq<Edit<T>>): (r: seq<T>)
    requires AllFit(es, |s|)
    ensures |r| == |s| + Growth(es)
    decreases |es|
  {
    if es == [] then s
    else
      assert AllFit(es[..|es| - 1], |s|);
      GrowthOfFits(es[..|es| - 1], |s|);
      Splice(Apply(s, es[..|es| - 1]), es[|es| - 1])
  }

  /** Applying one more edit after a prefix of edits. */
  lemma {:induction false} ApplySnoc<T>(s: seq<T>, es: seq<Edit<T>>, e: Edit<T>)
    requires AllFit(es, |s|) && Fits(e, |s|)
    ensures AllFit(es + [e], |s|)
    ensures |Apply(s, es)| >= |s|
    ensures Apply(s, es + [e]) == Splice(Apply(s, es), e)
  {
    assert (es + [e])[..|es|] == es;
    GrowthOfFits(es, |s|);
  }

  /** Applying a first edit, then the rest. */
  lemma {:induction false} ApplyCons<T>(s: seq<T>, e: Edit<T>, rest: seq<Edit<T>>)
    requires Fits(e, |s|) && AllFit(rest, |s|)
    ensures AllFit([e] + rest, |s|)
    ensures AllFit(rest, |Splice(s, e)|)
    ensures Apply(s, [e] + rest) == Apply(Splice(s, e), rest)
    decreases |rest|
  {
    var s' := Splice(s, e);
    assert AllFit(rest, |s'|) by {
      forall i | 0 <= i < |rest| ensures Fits(rest[i], |s'|) {
        assert Fits(rest[i], |s|);
      }
    }
    assert AllFit([e] + rest, |s|) by {
      forall i | 0 <= i < |[e] + rest| ensures Fits(([e] + rest)[i], |s|) {
        if i > 0 { assert ([e] + rest)[i] == rest[i - 1]; }
      }
    }
    if rest == [] {
      assert [e] + rest == [e];
      assert ([e] + rest)[..0] == [];
    } else {
      var init := rest[..|rest| - 1];
      var last := rest[|rest| - 1];
      assert AllFit(init, |s|);
      ApplyCons(s, e, init);
      assert ([e] + rest)[..|[e] + rest| - 1] == [e] + init;
      assert ([e] + rest)[|[e] + rest| - 1] == last;
    }
  }

  /** Every edit starts at or after `m`: positions below m are never touched. */
  ghost predicate AllAtOrAfter<T>(es: seq<Edit<T>>, m: nat) {
    forall i :: 0 <= i < |es| ==> m <= es[i].lo
  }

  /** Every edit ends at or before `m`. */
  ghost predicate AllAtOrBefore<T>(es: seq<Edit<T>>, m: nat) {
    forall i :: 0 <= i < |es| ==> es[i].hi <= m
  }

  /** Whatever the order of the edits, tokens before the lowest edited position
      are kept in place. */
  lemma {:induction false} PrefixConserved<T>(s: seq<T>, es: seq<Edit<T>>, m: nat)
    requires AllFit(es, |s|) && AllAtOrAfter(es, m) && m <= |s|
    ensures m <= |Apply(s, es)| && Apply(s, es)[..m] == s[..m]
    decreases |es|
  {
    if es != [] {
      var init := es[..|es| - 1];
      assert AllFit(init, |s|) && AllAtOrAfter(init, m);
      PrefixConserved(s, init, m);
      GrowthOfFits(init, |s|);
      assert es[|es| - 1].lo >= m;
    }
  }

  /** Whatever the order of the edits, the tokens after the highest edited
      position keep their order and stay at the end. */
  lemma {:induction false} SuffixConserved<T>(s: seq<T>, es: seq<Edit<T>>, m: nat)
    requires AllFit(es, |s|) && AllAtOrBefore(es, m) && m <= |s|
    ensures |Apply(s, es)| >= |s| - m
    ensures Apply(s, es)[|Apply(s, es)| - (|s| - m)..] == s[m..]
    decreases |es|
  {
    if es != [] {
      var init := es[..|es| - 1];
      var e := es[|es| - 1];
      assert AllFit(init, |s|) && AllAtOrBefore(init, m);
      SuffixConserved(s, init, m);
      GrowthOfFits(init, |s|);
      var d := Apply(s, init);
      assert e.hi <= m && Fits(e, |s|);
      var r := Splice(d, e);
      assert r[|r| - (|s| - m)..] == d[|d| - (|s| - m)..];
    }
  }

  /** The edits come in descending order: every later edit lies wholly below
      every earlier one (an insertion [p, p) may follow another at p). */
  ghost predicate Descending<T>(es: seq<Edit<T>>) {
    forall i, j :: 0 <= i < j < |es| ==> es[j].hi <= es[i].lo
  }

  /** The edits after the first of a descending list are descending and lie below it. */
  lemma {:induction false} DescendingRest<T>(s: seq<T>, es: seq<Edit<T>>)
    requires Descending(es) && AllFit(es, |s|) && es != []
    ensures Descending(es[1..]) && AllFit(es[1..], es[0].lo) && AllFit(es[1..], |s|)
  {
    var rest := es[1..];
    forall i | 0 <= i < |rest| ensures Fits(rest[i], es[0].lo) && Fits(rest[i], |s|) {
      assert rest[i] == es[i + 1];
      assert Fits(es[i + 1], |s|);
    }
    forall i, j | 0 <= i < j < |rest| ensures rest[j].hi <= rest[i].lo {
      assert rest[i] == es[i + 1] && rest[j] == es[j + 1];
    }
  }

  /** The reference result of descending edits, built from slices of the
      original only: the part above the first (highest) edit is kept verbatim,
      preceded by that edit's block, preceded by the rendering of the part
      below it with the remaining edits. */
  function Merge<T>(s: seq<T>, es: seq<Edit<T>>): seq<T>
    requires Descending(es) && AllFit(es, |s|)
    decreases |es|
  {
    if es == [] then s
    else
      var e := es[0];
      var rest := es[1..];
      DescendingRest(s, es);
      Merge(s[..e.lo], rest) + e.block + s[e.hi..]
  }

  /** Edits that all end at or before p only see the first p elements. */
  lemma {:induction false} ApplyBelow<T>(s: seq<T>, es: seq<Edit<T>>, p: nat)
    requires p <= |s| && AllFit(es, p)
    ensures AllFit(es, |s|) && AllFit(es, |s[..p]|)
    ensures Apply(s, es) == Apply(s[..p], es) + s[p..]
    decreases |es|
  {
    assert AllFit(es, |s|) by {
      forall i | 0 <= i < |es| ensures Fits(es[i], |s|) { assert Fits(es[i], p); }
    }
    assert |s[..p]| == p;
    if es == [] {
      assert s == s[..p] + s[p..];
    } else {
      var init := es[..|es| - 1];
      var e := es[|es| - 1];
      assert AllFit(init, p);
      ApplyBelow(s, init, p);
      GrowthOfFits(init, p);
      var lo := Apply(s[..p], init);
      assert Fits(e, p);
      assert Apply(s, es) == Splice(lo + s[p..], e);
      assert Splice(lo + s[p..], e) == Splice(lo, e) + s[p..];
    }
  }

  /** A splice keeps everything below its position and puts its block first above it. */
  lemma {:induction false} SpliceParts<T>(s: seq<T>, e: Edit<T>)
    requires Fits(e, |s|)
    ensures Splice(s, e)[..e.lo] == s[..e.lo]
    ensures Splice(s, e)[e.lo..] == e.block + s[e.hi..]
  {
    assert Splice(s, e) == s[..e.lo] + (e.block + s[e.hi..]);
  }

  /** Applying descending edits: the highest edit's block and the part above it
      end up verbatim behind what the remaining edits make of the part below. */
  lemma {:induction false} ApplyFirst<T>(s: seq<T>, es: seq<Edit<T>>)
    requires Descending(es) && AllFit(es, |s|) && es != []
    ensures es[0].lo <= |s| && AllFit(es[1..], es[0].lo)
    ensures Apply(s, es) == Apply(s[..es[0].lo], es[1..]) + (es[0].block + s[es[0].hi..])
  {
    var e := es[0];
    var rest := es[1..];
    assert es == [e] + rest;
    DescendingRest(s, es);
    assert Fits(e, |s|);
    ApplyCons(s, e, rest);
    var s' := Splice(s, e);
    ApplyBelow(s', rest, e.lo);
    SpliceParts(s, e);
    assert Apply(s, es) == Apply(s', rest);
    assert Apply(s', rest) == Apply(s'[..e.lo], rest) + s'[e.lo..];
  }

  /** For descending edits, applying them one after another at their original
      positions gives exactly the reference rendering: every element that no
      edit replaces is kept, in its original relative order. */
  lemma {:induction false} ApplyIsMerge<T>(s: seq<T>, es: seq<Edit<T>>)
    requires Descending(es) && AllFit(es, |s|)
    ensures Apply(s, es) == Merge(s, es)
    decreases |es|
  {
    if es != [] {
      ApplyFirst(s, es);
      DescendingRest(s, es);
      var e := es[0];
      assert |s[..e.lo]| == e.lo;
      ApplyIsMerge(s[..e.lo], es[1..]);
    }
  }

  /** Concatenating descending edit lists keeps them descending when every
      edit of the second list lies below every edit of the first. */
  lemma {:induction false} DescendingConcat<T>(a: seq<Edit<T>>, b: seq<Edit<T>>)
    requires Descending(a) && Descending(b)
    requires forall i, j :: 0 <= i < |a| && 0 <= j < |b| ==> b[j].hi <= a[i].lo
    ensures Descending(a + b)
  {
    forall i, j | 0 <= i < j < |a + b| ensures (a + b)[j].hi <= (a + b)[i].lo {
      if j < |a| {
      } else if i < |a| {
        assert (a + b)[j] == b[j - |a|];
      } else {
        assert (a + b)[j] == b[j - |a|] && (a + b)[i] == b[i - |a|];
      }
    }
  }
}
