/** What `construct_patched_file_data` guarantees about its result. */
module CompositorProperties {
  import opened PhpValues
  import opened Tokens
  import opened Scanner
  import opened Splice
  import opened Compositor

  // ---------------------------------------------------------------------------
  // The replaced-functions table.

  /** Source class c and patch class c both have a method f. */
  ghost predicate Overridden(src: ParseData, patch: ParseData, c: string, f: string) {
    && c in src.classes.values && c in patch.classes.values
    && f in src.classes.values[c].functions.values
    && f in patch.classes.values[c].functions.values
  }

  /** p records the source code of method p.0 of class c, overridden by the patch. */
  ghost predicate PairFrom(src: ParseData, patch: ParseData, c: string, p: (string, string)) {
    Overridden(src, patch, c, p.0) && p.1 == src.classes.values[c].functions.values[p.0].code
  }

  /** Storing pairs in turn: a key is present when it was already or some
      pair names it, and then holds the value of the last pair naming it. */
  lemma {:induction false} PutAllAt(a: Assoc<string>, ps: seq<(string, string)>, k: string)
    ensures k in PutAll(a, ps).values <==> (k in a.values || exists i :: 0 <= i < |ps| && ps[i].0 == k)
    ensures k in PutAll(a, ps).values && k !in a.values ==>
      exists i :: 0 <= i < |ps| && ps[i].0 == k && PutAll(a, ps).values[k] == ps[i].1
                  && forall j :: i < j < |ps| ==> ps[j].0 != k
  {
    if ps != [] {
      var init := ps[..|ps| - 1];
      var p := ps[|ps| - 1];
      PutAllAt(a, init, k);
      assert PutAll(a, ps) == PutAll(a, init).Put(p.0, p.1);
      if k == p.0 {
        assert ps[|ps| - 1].0 == k;
      } else {
        assert k in PutAll(a, ps).values <==> k in PutAll(a, init).values;
        if k in PutAll(a, init).values {
          assert PutAll(a, ps).values[k] == PutAll(a, init).values[k];
        }
        if exists i :: 0 <= i < |ps| && ps[i].0 == k {
          var i :| 0 <= i < |ps| && ps[i].0 == k;
          assert init[i] == ps[i];
        }
        if exists i :: 0 <= i < |init| && init[i].0 == k {
          var i :| 0 <= i < |init| && init[i].0 == k;
          assert ps[i] == init[i];
        }
        if k in PutAll(a, ps).values && k !in a.values {
          var i :| 0 <= i < |init| && init[i].0 == k && PutAll(a, init).values[k] == init[i].1
                   && forall j :: i < j < |init| ==> init[j].0 != k;
          assert ps[i] == init[i];
          forall j | i < j < |ps| ensures ps[j].0 != k {
            if j < |init| { assert ps[j] == init[j]; }
          }
        }
      }
    }
  }

  lemma {:induction false} OverridePairsIn(src: ParseData, patch: ParseData, c: string, j: nat)
    requires Shared(src, patch, c)
    requires j <= |src.classes.values[c].functions.keys|
    ensures forall p :: p in OverridePairs(src, patch, c, j) ==> PairFrom(src, patch, c, p)
    ensures forall i :: j <= i < |src.classes.values[c].functions.keys| ==>
      var f := src.classes.values[c].functions.keys[i];
      f in src.classes.values[c].functions.values &&
      (Overridden(src, patch, c, f) ==>
         (f, src.classes.values[c].functions.values[f].code) in OverridePairs(src, patch, c, j))
    decreases |src.classes.values[c].functions.keys| - j
  {
    assert ClassInRange(src.classes.values[c], |src.lexes|);
    if j < |src.classes.values[c].functions.keys| {
      OverridePairsIn(src, patch, c, j + 1);
    }
  }

  lemma {:induction false} ClassPairsIn(src: ParseData, patch: ParseData, c: string)
    requires ValidParse(src) && ValidParse(patch) && c in src.classes.values
    ensures forall p :: p in ClassPairs(src, patch, c) <==> PairFrom(src, patch, c, p)
  {
    if c in patch.classes.values {
      OverridePairsIn(src, patch, c, 0);
      var sfs := src.classes.values[c].functions;
      assert ClassInRange(src.classes.values[c], |src.lexes|);
      forall p | PairFrom(src, patch, c, p) ensures p in ClassPairs(src, patch, c) {
        var i :| 0 <= i < |sfs.keys| && sfs.keys[i] == p.0;
      }
    }
  }

  lemma {:induction false} AllPairsIn(src: ParseData, patch: ParseData, k: nat)
    requires ValidParse(src) && ValidParse(patch) && k <= |src.classes.keys|
    ensures forall p :: p in AllPairs(src, patch, k) <==>
      exists i :: k <= i < |src.classes.keys| && PairFrom(src, patch, src.classes.keys[i], p)
    decreases |src.classes.keys| - k
  {
    if k < |src.classes.keys| {
      AllPairsIn(src, patch, k + 1);
      var c := src.classes.keys[k];
      assert c in src.classes.values;
      ClassPairsIn(src, patch, c);
      var a := AllPairs(src, patch, k + 1);
      var b := ClassPairs(src, patch, c);
      assert AllPairs(src, patch, k) == a + b;
      forall p ensures p in a + b <==>
        exists i :: k <= i < |src.classes.keys| && PairFrom(src, patch, src.classes.keys[i], p)
      {
        if p in b {
          assert PairFrom(src, patch, src.classes.keys[k], p);
        }
        if p in a {
          var i :| k + 1 <= i < |src.classes.keys| && PairFrom(src, patch, src.classes.keys[i], p);
        }
        if exists i :: k <= i < |src.classes.keys| && PairFrom(src, patch, src.classes.keys[i], p) {
          var i :| k <= i < |src.classes.keys| && PairFrom(src, patch, src.classes.keys[i], p);
          if i == k { assert p in b; } else { assert p in a; }
        }
      }
    }
  }

  lemma {:induction false} ComposeReplaced(src: ParseData, patch: ParseData)
    requires ValidParse(src) && ValidParse(patch)
    ensures ComposeSpec(src, patch).replacedFunctions == PutAll(Empty(), AllPairs(src, patch, 0))
  {
  }

  /** A name in `replaced_functions` is an overridden method and holds its source code. */
  lemma {:induction false} ReplacedSound(src: ParseData, patch: ParseData, f: string)
    requires ValidParse(src) && ValidParse(patch)
    requires f in PutAll(Empty(), AllPairs(src, patch, 0)).values
    ensures exists c :: PairFrom(src, patch, c, (f, PutAll(Empty(), AllPairs(src, patch, 0)).values[f]))
  {
    var ps := AllPairs(src, patch, 0);
    var r := PutAll(Empty(), ps);
    PutAllAt(Empty(), ps, f);
    AllPairsIn(src, patch, 0);
    var i :| 0 <= i < |ps| && ps[i].0 == f && r.values[f] == ps[i].1;
    assert ps[i] in ps;
    var n :| 0 <= n < |src.classes.keys| && PairFrom(src, patch, src.classes.keys[n], ps[i]);
    assert ps[i] == (f, r.values[f]);
  }

  /** Every overridden method's name is in `replaced_functions`. */
  lemma {:induction false} ReplacedComplete(src: ParseData, patch: ParseData, c: string, f: string)
    requires ValidParse(src) && ValidParse(patch) && Overridden(src, patch, c, f)
    ensures f in PutAll(Empty(), AllPairs(src, patch, 0)).values
  {
    var ps := AllPairs(src, patch, 0);
    var p := (f, src.classes.values[c].functions.values[f].code);
    assert c in src.classes.keys;
    var n :| 0 <= n < |src.classes.keys| && src.classes.keys[n] == c;
    assert PairFrom(src, patch, src.classes.keys[n], p);
    AllPairsIn(src, patch, 0);
    assert p in ps;
    var i :| 0 <= i < |ps| && ps[i] == p;
    assert ps[i].0 == f;
    PutAllAt(Empty(), ps, f);
  }

  lemma {:induction false} ReplacedFunctions(src: ParseData, patch: ParseData)
    requires ValidParse(src) && ValidParse(patch)
    ensures var r := ComposeSpec(src, patch).replacedFunctions;
      forall f :: f in r.values <==> exists c :: Overridden(src, patch, c, f)
    ensures var r := ComposeSpec(src, patch).replacedFunctions;
      forall f :: f in r.values ==> exists c :: PairFrom(src, patch, c, (f, r.values[f]))
  {
    ComposeReplaced(src, patch);
    var r := PutAll(Empty(), AllPairs(src, patch, 0));
    forall f | f in r.values ensures exists c :: PairFrom(src, patch, c, (f, r.values[f])) {
      ReplacedSound(src, patch, f);
    }
    forall f | exists c :: Overridden(src, patch, c, f) ensures f in r.values {
      var c :| Overridden(src, patch, c, f);
      ReplacedComplete(src, patch, c, f);
    }
  }

  /** On a parse result, each recorded code is the text of the source method's tokens. */
  lemma {:induction false} ReplacedCode(src: ParseData, patch: ParseData)
    requires ValidParse(src) && ValidParse(patch) && CodesMatch(src)
    ensures var r := ComposeSpec(src, patch).replacedFunctions;
      forall f :: f in r.values ==> exists c :: (Overridden(src, patch, c, f) &&
        var sf := src.classes.values[c].functions.values[f];
        r.values[f] == Text(src.lexes, sf.startLexPos, sf.endLexPos + 1))
  {
    ReplacedFunctions(src, patch);
    var r := ComposeSpec(src, patch).replacedFunctions;
    forall f | f in r.values ensures exists c :: (Overridden(src, patch, c, f) &&
        var sf := src.classes.values[c].functions.values[f];
        r.values[f] == Text(src.lexes, sf.startLexPos, sf.endLexPos + 1))
    {
      var c :| PairFrom(src, patch, c, (f, r.values[f]));
    }
  }

  // ---------------------------------------------------------------------------
  // Which positions the edits touch.

  lemma {:induction false} BoundsConcat(a: seq<Edit<Token>>, b: seq<Edit<Token>>, lo: nat, hi: nat)
    requires AllAtOrAfter(a, lo) && AllAtOrAfter(b, lo)
    requires AllAtOrBefore(a, hi) && AllAtOrBefore(b, hi)
    ensures AllAtOrAfter(a + b, lo) && AllAtOrBefore(a + b, hi)
  {
    forall i | 0 <= i < |a + b| ensures lo <= (a + b)[i].lo && (a + b)[i].hi <= hi {
      if i < |a| { assert (a + b)[i] == a[i]; } else { assert (a + b)[i] == b[i - |a|]; }
    }
  }

  /** Every splice of a new method inserts at the source class's closing brace. */
  lemma {:induction false} InsertEditsAtEnd(src: ParseData, patch: ParseData, c: string, j: nat)
    requires Shared(src, patch, c)
    requires j <= |patch.classes.values[c].functions.keys|
    ensures var e := src.classes.values[c].endLexPos;
      forall t :: 0 <= t < |InsertEdits(src, patch, c, j)| ==>
        InsertEdits(src, patch, c, j)[t].lo == e && InsertEdits(src, patch, c, j)[t].hi == e
  {
    if j > 0 {
      InsertEditsAtEnd(src, patch, c, j - 1);
    }
  }

  /** Every recorded method of class `cl` starts at or after position m. */
  ghost predicate MethodsFrom(cl: ClassInfo, m: nat) {
    forall f :: f in cl.functions.values ==> m <= cl.functions.values[f].startLexPos
  }

  lemma {:induction false} OverrideEditsWithin(src: ParseData, patch: ParseData, c: string, j: nat, m: nat)
    requires Shared(src, patch, c)
    requires j <= |src.classes.values[c].functions.keys|
    requires MethodsFrom(src.classes.values[c], m)
    ensures AllAtOrAfter(OverrideEdits(src, patch, c, j), m)
    ensures AllAtOrBefore(OverrideEdits(src, patch, c, j), src.classes.values[c].endLexPos)
    decreases |src.classes.values[c].functions.keys| - j
  {
    if j < |src.classes.values[c].functions.keys| {
      OverrideEditsWithin(src, patch, c, j + 1, m);
      assert ClassInRange(src.classes.values[c], |src.lexes|);
      var sfs := src.classes.values[c].functions;
      assert sfs.keys[j] in sfs.values;
      BoundsConcat(OverrideEdits(src, patch, c, j + 1), OverrideAt(src, patch, c, j),
                   m, src.classes.values[c].endLexPos);
    }
  }

  /** Every edit for class c lies between m and the class's closing brace. */
  lemma {:induction false} ClassEditsWithin(src: ParseData, patch: ParseData, c: string, m: nat)
    requires ValidParse(src) && ValidParse(patch) && c in src.classes.values
    requires MethodsFrom(src.classes.values[c], m) && m <= src.classes.values[c].endLexPos
    ensures AllAtOrAfter(ClassEdits(src, patch, c), m)
    ensures AllAtOrBefore(ClassEdits(src, patch, c), src.classes.values[c].endLexPos)
  {
    if c in patch.classes.values {
      var n := |patch.classes.values[c].functions.keys|;
      InsertEditsAtEnd(src, patch, c, n);
      OverrideEditsWithin(src, patch, c, 0, m);
      BoundsConcat(InsertEdits(src, patch, c, n), OverrideEdits(src, patch, c, 0),
                   m, src.classes.values[c].endLexPos);
    }
  }

  /** m lies at or below every recorded method start and class end of the source. */
  ghost predicate UntouchedBelow(src: ParseData, m: nat) {
    forall c :: c in src.classes.values ==>
      m <= src.classes.values[c].endLexPos && MethodsFrom(src.classes.values[c], m)
  }

  /** m lies at or above every recorded class end of the source. */
  ghost predicate UntouchedAbove(src: ParseData, m: nat) {
    forall c :: c in src.classes.values ==> src.classes.values[c].endLexPos <= m
  }

  lemma {:induction false} AllEditsWithin(src: ParseData, patch: ParseData, k: nat, lo: nat, hi: nat)
    requires ValidParse(src) && ValidParse(patch) && k <= |src.classes.keys|
    requires UntouchedBelow(src, lo) && UntouchedAbove(src, hi)
    ensures AllAtOrAfter(AllEdits(src, patch, k), lo) && AllAtOrBefore(AllEdits(src, patch, k), hi)
    decreases |src.classes.keys| - k
  {
    if k < |src.classes.keys| {
      AllEditsWithin(src, patch, k + 1, lo, hi);
      var c := src.classes.keys[k];
      assert c in src.classes.values;
      ClassEditsWithin(src, patch, c, lo);
      assert AllAtOrBefore(ClassEdits(src, patch, c), hi);
      BoundsConcat(AllEdits(src, patch, k + 1), ClassEdits(src, patch, c), lo, hi);
    }
  }

  /** The tokens before the first recorded method start or class end are kept as they are. */
  lemma {:induction false} PrefixKept(src: ParseData, patch: ParseData, m: nat)
    requires ValidParse(src) && ValidParse(patch) && m <= |src.lexes|
    requires UntouchedBelow(src, m)
    ensures m <= |ComposeSpec(src, patch).lexes|
    ensures ComposeSpec(src, patch).lexes[..m] == src.lexes[..m]
  {
    AllEditsAdmissible(src, patch, 0);
    AllEditsWithin(src, patch, 0, m, |src.lexes|);
    PrefixConserved(src.lexes, AllEdits(src, patch, 0), m);
  }

  /** The tokens from the last class's closing brace on are kept, at the end. */
  lemma {:induction false} SuffixKept(src: ParseData, patch: ParseData, m: nat)
    requires ValidParse(src) && ValidParse(patch) && m <= |src.lexes|
    requires UntouchedAbove(src, m)
    ensures var r := ComposeSpec(src, patch).lexes;
      |r| >= |src.lexes| - m && r[|r| - (|src.lexes| - m)..] == src.lexes[m..]
  {
    AllEditsAdmissible(src, patch, 0);
    AllEditsWithin(src, patch, 0, 0, m);
    SuffixConserved(src.lexes, AllEdits(src, patch, 0), m);
  }

  /** Without a class in common, the merged file is the source file unchanged. */
  lemma {:induction false} NoSharedClass(src: ParseData, patch: ParseData, k: nat)
    requires ValidParse(src) && ValidParse(patch) && k <= |src.classes.keys|
    requires forall c :: c in src.classes.values ==> c !in patch.classes.values
    ensures AllEdits(src, patch, k) == [] && AllPairs(src, patch, k) == []
    decreases |src.classes.keys| - k
  {
    if k < |src.classes.keys| {
      NoSharedClass(src, patch, k + 1);
      var c := src.classes.keys[k];
      assert c in src.classes.values;
      assert c !in patch.classes.values;
      assert ClassEdits(src, patch, c) == [] && ClassPairs(src, patch, c) == [];
    }
  }

  lemma {:induction false} NoSharedClassIdentity(src: ParseData, patch: ParseData)
    requires ValidParse(src) && ValidParse(patch)
    requires forall c :: c in src.classes.values ==> c !in patch.classes.values
    ensures ComposeSpec(src, patch).lexes == src.lexes
    ensures ComposeSpec(src, patch).file == Concat(src.lexes)
    ensures ComposeSpec(src, patch).replacedFunctions == Empty()
  {
    NoSharedClass(src, patch, 0);
  }

  // ---------------------------------------------------------------------------
  // When recorded ranges are separated, the edits act on the original positions.

  /** Methods start after the class name and lie in key order, one after another. */
  ghost predicate MethodsSeparated(cl: ClassInfo)
    requires cl.functions.Valid()
  {
    && MethodsFrom(cl, cl.startLexPos + 1)
    && forall i, j :: 0 <= i < j < |cl.functions.keys| ==>
         cl.functions.values[cl.functions.keys[i]].endLexPos
           < cl.functions.values[cl.functions.keys[j]].startLexPos
  }

  /** Classes lie in key order, one after another, and their methods are separated. */
  ghost predicate Separated(p: ParseData)
    requires ValidParse(p)
  {
    && (forall i, j :: 0 <= i < j < |p.classes.keys| ==>
          p.classes.values[p.classes.keys[i]].endLexPos < p.classes.values[p.classes.keys[j]].startLexPos)
    && (forall c :: c in p.classes.values ==>
          ClassInRange(p.classes.values[c], |p.lexes|) && MethodsSeparated(p.classes.values[c]))
  }

  lemma {:induction false} OverrideEditsDescend(src: ParseData, patch: ParseData, c: string, j: nat)
    requires Shared(src, patch, c)
    requires j <= |src.classes.values[c].functions.keys|
    requires MethodsSeparated(src.classes.values[c])
    ensures Descending(OverrideEdits(src, patch, c, j))
    ensures j < |src.classes.values[c].functions.keys| ==>
      var sfs := src.classes.values[c].functions;
      AllAtOrAfter(OverrideEdits(src, patch, c, j), sfs.values[sfs.keys[j]].startLexPos)
    decreases |src.classes.values[c].functions.keys| - j
  {
    var sfs := src.classes.values[c].functions;
    if j < |sfs.keys| {
      OverrideEditsDescend(src, patch, c, j + 1);
      var a := OverrideEdits(src, patch, c, j + 1);
      var b := OverrideAt(src, patch, c, j);
      assert ClassInRange(src.classes.values[c], |src.lexes|);
      assert sfs.keys[j] in sfs.values;
      var fj := sfs.values[sfs.keys[j]];
      if j + 1 < |sfs.keys| {
        assert fj.endLexPos < sfs.values[sfs.keys[j + 1]].startLexPos;
      }
      forall x, y | 0 <= x < |a| && 0 <= y < |b| ensures b[y].hi <= a[x].lo {
      }
      DescendingConcat(a, b);
      forall x | 0 <= x < |a + b| ensures fj.startLexPos <= (a + b)[x].lo {
        if x < |a| { assert (a + b)[x] == a[x]; } else { assert (a + b)[x] == b[x - |a|]; }
      }
    }
  }

  lemma {:induction false} ClassEditsDescend(src: ParseData, patch: ParseData, c: string)
    requires ValidParse(src) && ValidParse(patch) && c in src.classes.values
    requires src.classes.values[c].functions.Valid() && MethodsSeparated(src.classes.values[c])
    ensures Descending(ClassEdits(src, patch, c))
  {
    if c in patch.classes.values {
      var n := |patch.classes.values[c].functions.keys|;
      var a := InsertEdits(src, patch, c, n);
      var b := OverrideEdits(src, patch, c, 0);
      InsertEditsAtEnd(src, patch, c, n);
      OverrideEditsDescend(src, patch, c, 0);
      OverrideEditsWithin(src, patch, c, 0, src.classes.values[c].startLexPos + 1);
      DescendingConcat(a, b);
    }
  }

  lemma {:induction false} AfterConcat(a: seq<Edit<Token>>, b: seq<Edit<Token>>, lo: nat)
    requires AllAtOrAfter(a, lo) && AllAtOrAfter(b, lo)
    ensures AllAtOrAfter(a + b, lo)
  {
    forall i | 0 <= i < |a + b| ensures lo <= (a + b)[i].lo {
      if i < |a| { assert (a + b)[i] == a[i]; } else { assert (a + b)[i] == b[i - |a|]; }
    }
  }

  lemma {:induction false} AllEditsDescend(src: ParseData, patch: ParseData, k: nat)
    requires ValidParse(src) && ValidParse(patch) && k <= |src.classes.keys|
    requires Separated(src)
    ensures Descending(AllEdits(src, patch, k))
    ensures k < |src.classes.keys| ==>
      AllAtOrAfter(AllEdits(src, patch, k), src.classes.values[src.classes.keys[k]].startLexPos + 1)
    decreases |src.classes.keys| - k
  {
    if k < |src.classes.keys| {
      AllEditsDescend(src, patch, k + 1);
      var c := src.classes.keys[k];
      assert c in src.classes.values;
      var cl := src.classes.values[c];
      var a := AllEdits(src, patch, k + 1);
      var b := ClassEdits(src, patch, c);
      assert AllEdits(src, patch, k) == a + b;
      assert ClassInRange(cl, |src.lexes|) && MethodsSeparated(cl);
      ClassEditsDescend(src, patch, c);
      ClassEditsWithin(src, patch, c, cl.startLexPos + 1);
      if k + 1 < |src.classes.keys| {
        var next := src.classes.values[src.classes.keys[k + 1]];
        assert cl.endLexPos < next.startLexPos;
        assert AllAtOrAfter(a, next.startLexPos + 1);
        forall x, y | 0 <= x < |a| && 0 <= y < |b| ensures b[y].hi <= a[x].lo {
        }
      } else {
        assert a == [];
      }
      DescendingConcat(a, b);
      AfterConcat(a, b, cl.startLexPos + 1);
    }
  }

  /** On separated ranges the merged tokens are the reference merge of the
      source, which slices only the original token list. */
  lemma {:induction false} ComposeIsMerge(src: ParseData, patch: ParseData)
    requires ValidParse(src) && ValidParse(patch) && Separated(src)
    ensures AllFit(AllEdits(src, patch, 0), |src.lexes|) && Descending(AllEdits(src, patch, 0))
    ensures ComposeSpec(src, patch).lexes == Merge(src.lexes, AllEdits(src, patch, 0))
  {
    AllEditsAdmissible(src, patch, 0);
    AllEditsDescend(src, patch, 0);
    ApplyIsMerge(src.lexes, AllEdits(src, patch, 0));
  }
}
