/** The structural scan of `parse_php`.

    A five-phase machine (Nowhere, Class, NamedClass, Function, NamedFunction)
    walks the normalised tokens once, with one brace-nesting counter shared by
    all phases. It records every class that closes, with the position of its
    name token and of its closing brace, and inside it every method that
    closes, with its start (the pending visibility modifier's position, or
    else the `function` keyword's) and the position of its closing brace. A
    second pass stores each method's source text. */
module Scanner {
  import opened PhpValues
  import opened Tokens

  datatype FunctionInfo = FunctionInfo(
    name: string, nesting: int, access: string, startLexPos: nat, endLexPos: nat, code: string)

  datatype ClassInfo = ClassInfo(
    name: string, nesting: int, startLexPos: nat, endLexPos: nat, functions: Assoc<FunctionInfo>)

  /** What `parse_php` returns: the normalised tokens and the classes found. */
  datatype ParseData = ParseData(lexes: seq<Token>, classes: Assoc<ClassInfo>)

  datatype Phase = Nowhere | InClass | NamedClass | InFunction | NamedFunction

  /** The pending visibility modifier: its text and position. */
  datatype Modifier = Modifier(name: string, lexPos: nat)

  /** The loop variables of the scan. */
  datatype ScanState = ScanState(
    phase: Phase, nesting: int, pending: Option<Modifier>,
    curClass: ClassInfo, curFunction: FunctionInfo, curlyOpenMode: bool,
    classes: Assoc<ClassInfo>)

  /** PHP truthiness of a string. */
  predicate Truthy(s: string) { s != "" && s != "0" }

  predicate IsModifier(k: Kind) { k == TPublic || k == TPrivate || k == TProtected }

  /** A bare-string token with the given text. */
  predicate IsPunct(t: Token, c: string) { t.kind == UString && t.text == c }

  function NewClass(): ClassInfo { ClassInfo("", 0, 0, 0, Empty()) }

  function InitState(): ScanState {
    ScanState(Nowhere, 0, None, NewClass(), FunctionInfo("", 0, "public", 0, 0, ""), false, Empty())
  }

  /** One iteration of the scan loop, on the token `t` at position `pos`. */
  function Step(st: ScanState, pos: nat, t: Token): ScanState {
    match st.phase
    case Nowhere =>
      if t.kind == TClass then st.(phase := InClass, curClass := NewClass()) else st
    case InClass =>
      if t.kind == TString then
        st.(phase := NamedClass,
            curClass := st.curClass.(name := t.text, nesting := st.nesting + 1, startLexPos := pos))
      else st
    case NamedClass =>
      if t.kind == UString then
        if t.text == "{" then st.(nesting := st.nesting + 1)
        else if t.text == "}" then
          var n := st.nesting - 1;
          if n < st.curClass.nesting then
            var c := st.curClass.(endLexPos := pos);
            st.(nesting := n, curClass := c, classes := st.classes.Put(c.name, c), phase := Nowhere)
          else st.(nesting := n)
        else st
      else if IsModifier(t.kind) then st.(pending := Some(Modifier(t.text, pos)))
      else if t.kind == TVariable then st.(pending := None)
      else if t.kind == TFunction then
        st.(phase := InFunction, curFunction := FunctionInfo("", st.nesting + 1, "public", pos, 0, ""))
      else st
    case InFunction =>
      if t.kind == TString then
        var f := st.curFunction.(name := t.text);
        var f' := if st.pending.Some? && Truthy(st.pending.value.name)
                  then f.(access := st.pending.value.name, startLexPos := st.pending.value.lexPos)
                  else f;
        st.(phase := NamedFunction, curlyOpenMode := false, curFunction := f')
      else st
    case NamedFunction =>
      if t.kind == TCurlyOpen then st.(curlyOpenMode := true)
      else if t.kind == UString then
        if t.text == "{" then st.(nesting := st.nesting + 1)
        else if t.text == "}" then
          if st.curlyOpenMode then st.(curlyOpenMode := false)
          else
            var n := st.nesting - 1;
            if n < st.curFunction.nesting then
              var f := st.curFunction.(endLexPos := pos);
              st.(nesting := n, curFunction := f, phase := NamedClass,
                  curClass := st.curClass.(functions := st.curClass.functions.Put(f.name, f)))
            else st.(nesting := n)
        else st
      else st
  }

  /** The loop variables after the first n tokens. */
  function Run(ts: seq<Token>, n: nat): ScanState
    requires n <= |ts|
  {
    if n == 0 then InitState() else Step(Run(ts, n - 1), n - 1, ts[n - 1])
  }

  // ---------------------------------------------------------------------------
  // What the scan guarantees about the ranges it records.

  /** A method starts at its `function` keyword with access "public", or at a
      visibility modifier whose text is its access. */
  ghost predicate StartOk(ts: seq<Token>, f: FunctionInfo) {
    && f.startLexPos < |ts|
    && ((ts[f.startLexPos].kind == TFunction && f.access == "public")
        || (IsModifier(ts[f.startLexPos].kind) && f.access == ts[f.startLexPos].text && Truthy(f.access)))
  }

  /** A recorded method: a non-empty range before `bound`, ending at a "}". */
  ghost predicate FunctionOk(ts: seq<Token>, f: FunctionInfo, bound: nat) {
    && 1 <= f.startLexPos <= f.endLexPos < bound <= |ts|
    && IsPunct(ts[f.endLexPos], "}")
    && StartOk(ts, f)
  }

  ghost predicate FunctionsOk(ts: seq<Token>, fs: Assoc<FunctionInfo>, bound: nat) {
    && fs.Valid()
    && forall k :: k in fs.values ==> fs.values[k].name == k && FunctionOk(ts, fs.values[k], bound)
  }

  /** An open class: named by the identifier at its start, methods before `bound`. */
  ghost predicate ClassHeadOk(ts: seq<Token>, c: ClassInfo, bound: nat) {
    && c.startLexPos < bound <= |ts|
    && ts[c.startLexPos].kind == TString && ts[c.startLexPos].text == c.name
    && FunctionsOk(ts, c.functions, bound)
  }

  /** A recorded class: it closes at a "}" after its name, and its methods close before that. */
  ghost predicate ClassOk(ts: seq<Token>, c: ClassInfo) {
    && c.startLexPos < c.endLexPos < |ts|
    && IsPunct(ts[c.endLexPos], "}")
    && ClassHeadOk(ts, c, c.endLexPos)
  }

  ghost predicate ClassesOk(ts: seq<Token>, cs: Assoc<ClassInfo>) {
    && cs.Valid()
    && forall k :: k in cs.values ==> cs.values[k].name == k && ClassOk(ts, cs.values[k])
  }

  ghost predicate PendingOk(ts: seq<Token>, p: Option<Modifier>, n: nat) {
    p.Some? ==> 1 <= p.value.lexPos < n <= |ts| && IsModifier(ts[p.value.lexPos].kind)
                && ts[p.value.lexPos].text == p.value.name
  }

  /** The scan invariant after n tokens. */
  ghost predicate Inv(ts: seq<Token>, n: nat, st: ScanState) {
    && n <= |ts|
    && ClassesOk(ts, st.classes)
    && PendingOk(ts, st.pending, n)
    && (st.phase == InClass ==> FunctionsOk(ts, st.curClass.functions, n))
    && (st.phase in {NamedClass, InFunction, NamedFunction} ==> ClassHeadOk(ts, st.curClass, n))
    && (st.phase == InFunction ==>
          && st.curClass.startLexPos < st.curFunction.startLexPos < n
          && ts[st.curFunction.startLexPos].kind == TFunction && st.curFunction.access == "public")
    && (st.phase == NamedFunction ==>
          1 <= st.curFunction.startLexPos < n && StartOk(ts, st.curFunction))
  }

  lemma {:induction false} FunctionsOkGrow(ts: seq<Token>, fs: Assoc<FunctionInfo>, n: nat, m: nat)
    requires FunctionsOk(ts, fs, n) && n <= m <= |ts|
    ensures FunctionsOk(ts, fs, m)
  {
  }

  lemma {:induction false} FunctionsOkPut(ts: seq<Token>, fs: Assoc<FunctionInfo>, f: FunctionInfo, n: nat)
    requires FunctionsOk(ts, fs, n) && FunctionOk(ts, f, n)
    ensures FunctionsOk(ts, fs.Put(f.name, f), n)
  {
  }

  lemma {:induction false} ClassesOkPut(ts: seq<Token>, cs: Assoc<ClassInfo>, c: ClassInfo)
    requires ClassesOk(ts, cs) && ClassOk(ts, c)
    ensures ClassesOk(ts, cs.Put(c.name, c))
  {
  }

  lemma {:induction false} StepClassCloses(ts: seq<Token>, n: nat, st: ScanState)
    requires Inv(ts, n, st) && n < |ts| && st.phase == NamedClass
    requires IsPunct(ts[n], "}") && st.nesting - 1 < st.curClass.nesting
    ensures Inv(ts, n + 1, Step(st, n, ts[n]))
  {
    var c := st.curClass.(endLexPos := n);
    FunctionsOkGrow(ts, st.curClass.functions, n, n + 1);
    assert ClassOk(ts, c);
    ClassesOkPut(ts, st.classes, c);
  }

  lemma {:induction false} StepNamedClass(ts: seq<Token>, n: nat, st: ScanState)
    requires Inv(ts, n, st) && n < |ts| && st.phase == NamedClass
    ensures Inv(ts, n + 1, Step(st, n, ts[n]))
  {
    var t := ts[n];
    if IsPunct(t, "}") && st.nesting - 1 < st.curClass.nesting {
      StepClassCloses(ts, n, st);
    } else {
      FunctionsOkGrow(ts, st.curClass.functions, n, n + 1);
      var s' := Step(st, n, t);
      assert s'.classes == st.classes && s'.curClass == st.curClass;
      assert s'.phase == NamedClass || s'.phase == InFunction;
    }
  }

  lemma {:induction false} StepNamedFunction(ts: seq<Token>, n: nat, st: ScanState)
    requires Inv(ts, n, st) && n < |ts| && st.phase == NamedFunction
    ensures Inv(ts, n + 1, Step(st, n, ts[n]))
  {
    var t := ts[n];
    FunctionsOkGrow(ts, st.curClass.functions, n, n + 1);
    if t.kind == UString && t.text == "}" && !st.curlyOpenMode
       && st.nesting - 1 < st.curFunction.nesting {
      var f := st.curFunction.(endLexPos := n);
      assert FunctionOk(ts, f, n + 1);
      FunctionsOkPut(ts, st.curClass.functions, f, n + 1);
    }
  }

  /** Every step keeps the invariant. */
  lemma {:induction false} StepKeepsInv(ts: seq<Token>, n: nat, st: ScanState)
    requires Inv(ts, n, st) && n < |ts|
    ensures Inv(ts, n + 1, Step(st, n, ts[n]))
  {
    match st.phase
    case Nowhere =>
    case InClass =>
      FunctionsOkGrow(ts, st.curClass.functions, n, n + 1);
    case NamedClass =>
      StepNamedClass(ts, n, st);
    case InFunction =>
      FunctionsOkGrow(ts, st.curClass.functions, n, n + 1);
    case NamedFunction =>
      StepNamedFunction(ts, n, st);
  }

  /** After any prefix of the tokens the scan invariant and the nesting
      discipline hold. */
  lemma {:induction false} RunKeepsInv(ts: seq<Token>, n: nat)
    requires n <= |ts|
    ensures Inv(ts, n, Run(ts, n))
    ensures Nests(ts, n)
  {
    if n > 0 {
      RunKeepsInv(ts, n - 1);
      StepKeepsInv(ts, n - 1, Run(ts, n - 1));
      StepKeepsNests(ts, n - 1);
    }
  }

  // ---------------------------------------------------------------------------
  // The nesting discipline: where each recorded range ends.

  /** The phases in which a class has been named and not yet closed. */
  predicate InsideClass(p: Phase) { p == NamedClass || p == InFunction || p == NamedFunction }

  /** The phases in which a method's `function` keyword has been read and its body not yet closed. */
  predicate InsideMethod(p: Phase) { p == InFunction || p == NamedFunction }

  /** The token at i is a "}" read at class level that takes the nesting below `level`. */
  ghost predicate ClassCloser(ts: seq<Token>, i: nat, level: int)
    requires i < |ts|
  {
    var s := Run(ts, i);
    s.phase == NamedClass && IsPunct(ts[i], "}") && s.nesting - 1 < level
  }

  /** The token at i is a "}" read in a method, not the one that ends a `{$`
      interpolation, that takes the nesting below `level`. */
  ghost predicate MethodCloser(ts: seq<Token>, i: nat, level: int)
    requires i < |ts|
  {
    var s := Run(ts, i);
    s.phase == NamedFunction && IsPunct(ts[i], "}") && !s.curlyOpenMode && s.nesting - 1 < level
  }

  /** The class named at `start` was entered at `level`, one above the nesting
      at its name, and is still open after n tokens: the state after them is
      inside it, and so was every state since its name, with no class-level
      "}" in between taking the nesting below `level` (`ClassOpenMeans`). */
  ghost predicate ClassOpen(ts: seq<Token>, start: nat, level: int, n: nat)
    decreases n
  {
    && start < n <= |ts|
    && level == Run(ts, start).nesting + 1
    && InsideClass(Run(ts, n).phase)
    && (n == start + 1 || (ClassOpen(ts, start, level, n - 1) && !ClassCloser(ts, n - 1, level)))
  }

  /** The method whose `function` keyword is at k was entered at `level`, one
      above the nesting at that keyword, and is still open after n tokens
      (`MethodOpenMeans`). */
  ghost predicate MethodOpen(ts: seq<Token>, k: nat, level: int, n: nat)
    decreases n
  {
    && k < n <= |ts|
    && ts[k].kind == TFunction && Run(ts, k).phase == NamedClass
    && level == Run(ts, k).nesting + 1
    && InsideMethod(Run(ts, n).phase)
    && (n == k + 1 || (MethodOpen(ts, k, level, n - 1) && !MethodCloser(ts, n - 1, level)))
  }

  /** The class named at `start` and entered at `level`, read over the
      positions up to n: every state since its name is inside it, and no
      class-level "}" before n took the nesting below `level`. */
  ghost predicate ClassStaysOpen(ts: seq<Token>, start: nat, level: int, n: nat)
    requires n <= |ts|
  {
    forall i :: start < i <= n ==> InsideClass(Run(ts, i).phase) && (i < n ==> !ClassCloser(ts, i, level))
  }

  /** The same for a method whose `function` keyword is at k. */
  ghost predicate MethodStaysOpen(ts: seq<Token>, k: nat, level: int, n: nat)
    requires n <= |ts|
  {
    forall i :: k < i <= n ==> InsideMethod(Run(ts, i).phase) && (i < n ==> !MethodCloser(ts, i, level))
  }

  lemma {:induction false} ClassOpenStays(ts: seq<Token>, start: nat, level: int, n: nat)
    requires ClassOpen(ts, start, level, n)
    ensures ClassStaysOpen(ts, start, level, n)
    decreases n
  {
    if n > start + 1 {
      ClassOpenStays(ts, start, level, n - 1);
      assert ClassStaysOpen(ts, start, level, n - 1);
    }
  }

  lemma {:induction false} ClassStaysOpenIs(ts: seq<Token>, start: nat, level: int, n: nat)
    requires start < n <= |ts| && level == Run(ts, start).nesting + 1
    requires ClassStaysOpen(ts, start, level, n)
    ensures ClassOpen(ts, start, level, n)
    decreases n
  {
    if n > start + 1 {
      assert ClassStaysOpen(ts, start, level, n - 1);
      ClassStaysOpenIs(ts, start, level, n - 1);
    }
  }

  lemma {:induction false} MethodOpenStays(ts: seq<Token>, k: nat, level: int, n: nat)
    requires MethodOpen(ts, k, level, n)
    ensures MethodStaysOpen(ts, k, level, n)
    decreases n
  {
    if n > k + 1 {
      MethodOpenStays(ts, k, level, n - 1);
      assert MethodStaysOpen(ts, k, level, n - 1);
    }
  }

  lemma {:induction false} MethodStaysOpenIs(ts: seq<Token>, k: nat, level: int, n: nat)
    requires k < n <= |ts| && ts[k].kind == TFunction && Run(ts, k).phase == NamedClass
    requires level == Run(ts, k).nesting + 1
    requires MethodStaysOpen(ts, k, level, n)
    ensures MethodOpen(ts, k, level, n)
    decreases n
  {
    if n > k + 1 {
      assert MethodStaysOpen(ts, k, level, n - 1);
      MethodStaysOpenIs(ts, k, level, n - 1);
    }
  }

  /** A class is open after n tokens exactly when it was entered one level
      above the nesting at its name, every state since is inside it and no
      class-level "}" before n took the nesting below that level. */
  lemma {:induction false} ClassOpenMeans(ts: seq<Token>, start: nat, level: int, n: nat)
    requires start < n <= |ts|
    ensures ClassOpen(ts, start, level, n) <==>
      level == Run(ts, start).nesting + 1 && ClassStaysOpen(ts, start, level, n)
  {
    if ClassOpen(ts, start, level, n) {
      ClassOpenStays(ts, start, level, n);
    }
    if level == Run(ts, start).nesting + 1 && ClassStaysOpen(ts, start, level, n) {
      ClassStaysOpenIs(ts, start, level, n);
    }
  }

  /** A method is open after n tokens exactly when its `function` keyword at k
      was read at class level, it was entered one level above the nesting
      there, every state since is inside it and no "}" of its body before n,
      other than one ending a `{$`, took the nesting below that level. */
  lemma {:induction false} MethodOpenMeans(ts: seq<Token>, k: nat, level: int, n: nat)
    requires k < n <= |ts|
    ensures MethodOpen(ts, k, level, n) <==>
      && ts[k].kind == TFunction && Run(ts, k).phase == NamedClass
      && level == Run(ts, k).nesting + 1
      && MethodStaysOpen(ts, k, level, n)
  {
    if MethodOpen(ts, k, level, n) {
      MethodOpenStays(ts, k, level, n);
    }
    if ts[k].kind == TFunction && Run(ts, k).phase == NamedClass && level == Run(ts, k).nesting + 1
       && MethodStaysOpen(ts, k, level, n) {
      MethodStaysOpenIs(ts, k, level, n);
    }
  }

  /** A recorded class ends at the first class-level "}" after its name that
      takes the nesting below the level it was entered at; that brace lowers
      the nesting by one and leaves the class. */
  ghost predicate ClassSpan(ts: seq<Token>, c: ClassInfo) {
    && c.endLexPos < |ts|
    && ClassOpen(ts, c.startLexPos, c.nesting, c.endLexPos)
    && ClassCloser(ts, c.endLexPos, c.nesting)
    && Run(ts, c.endLexPos + 1).nesting == Run(ts, c.endLexPos).nesting - 1
    && Run(ts, c.endLexPos + 1).phase == Nowhere
  }

  /** A recorded method ends at the first "}" of its body, other than one
      ending a `{$`, that takes the nesting below the level its `function`
      keyword entered; that brace lowers the nesting by one and returns to the
      class body. */
  ghost predicate MethodSpan(ts: seq<Token>, f: FunctionInfo) {
    && f.endLexPos < |ts|
    && (exists k :: f.startLexPos <= k && MethodOpen(ts, k, f.nesting, f.endLexPos))
    && MethodCloser(ts, f.endLexPos, f.nesting)
    && Run(ts, f.endLexPos + 1).nesting == Run(ts, f.endLexPos).nesting - 1
    && Run(ts, f.endLexPos + 1).phase == NamedClass
  }

  ghost predicate MethodsSpan(ts: seq<Token>, fs: Assoc<FunctionInfo>) {
    forall k :: k in fs.values ==> MethodSpan(ts, fs.values[k])
  }

  ghost predicate ClassesSpan(ts: seq<Token>, cs: Assoc<ClassInfo>) {
    forall k :: k in cs.values ==> ClassSpan(ts, cs.values[k]) && MethodsSpan(ts, cs.values[k].functions)
  }

  /** The open method's invariant: entered at its `function` keyword k, which
      comes after any pending modifier. */
  ghost predicate CurrentMethodOpen(ts: seq<Token>, n: nat, st: ScanState, k: nat) {
    && st.curFunction.startLexPos <= k
    && MethodOpen(ts, k, st.curFunction.nesting, n)
    && (st.pending.Some? ==> st.pending.value.lexPos < k)
  }

  /** The nesting discipline after the first n tokens. */
  ghost predicate Nests(ts: seq<Token>, n: nat)
    requires n <= |ts|
  {
    var st := Run(ts, n);
    && ClassesSpan(ts, st.classes)
    && MethodsSpan(ts, st.curClass.functions)
    && (InsideClass(st.phase) ==> ClassOpen(ts, st.curClass.startLexPos, st.curClass.nesting, n))
    && (InsideMethod(st.phase) ==> exists k :: CurrentMethodOpen(ts, n, st, k))
  }

  /** Only a visibility modifier or a variable read at class level changes the
      pending modifier. */
  lemma {:induction false} PendingStep(ts: seq<Token>, i: nat)
    requires i < |ts|
    ensures var s := Run(ts, i);
      Run(ts, i + 1).pending
        == if s.phase == NamedClass && IsModifier(ts[i].kind) then Some(Modifier(ts[i].text, i))
           else if s.phase == NamedClass && ts[i].kind == TVariable then None
           else s.pending
  {
  }

  /** Across tokens none of which is a class-level modifier or variable, the
      pending modifier is kept: through method ends, a class's closing brace
      and the header of the next class, so a modifier read in one class can
      become the start of an unmodified method of a later one. */
  lemma {:induction false} PendingSurvives(ts: seq<Token>, lo: nat, hi: nat)
    requires lo <= hi <= |ts|
    requires forall i :: lo <= i < hi ==>
      !(Run(ts, i).phase == NamedClass && (IsModifier(ts[i].kind) || ts[i].kind == TVariable))
    ensures Run(ts, hi).pending == Run(ts, lo).pending
  {
    if lo < hi {
      PendingSurvives(ts, lo, hi - 1);
      PendingStep(ts, hi - 1);
    }
  }

  /** In a method body, a `{$` followed by "}" leaves the nesting where it was:
      that "}" closes nothing. */
  lemma {:induction false} CurlyOpenBraceIgnored(ts: seq<Token>, i: nat, level: int)
    requires i + 1 < |ts| && Run(ts, i).phase == NamedFunction
    requires ts[i].kind == TCurlyOpen && IsPunct(ts[i + 1], "}")
    ensures !MethodCloser(ts, i + 1, level)
    ensures Run(ts, i + 2).phase == NamedFunction && Run(ts, i + 2).nesting == Run(ts, i).nesting
    ensures !Run(ts, i + 2).curlyOpenMode
  {
  }

  lemma {:induction false} ClassOpenGrow(ts: seq<Token>, start: nat, level: int, n: nat)
    requires ClassOpen(ts, start, level, n) && n < |ts|
    requires InsideClass(Run(ts, n + 1).phase) && !ClassCloser(ts, n, level)
    ensures ClassOpen(ts, start, level, n + 1)
  {
  }

  lemma {:induction false} MethodOpenGrow(ts: seq<Token>, k: nat, level: int, n: nat)
    requires MethodOpen(ts, k, level, n) && n < |ts|
    requires InsideMethod(Run(ts, n + 1).phase) && !MethodCloser(ts, n, level)
    ensures MethodOpen(ts, k, level, n + 1)
  {
  }

  lemma {:induction false} MethodsSpanPut(ts: seq<Token>, fs: Assoc<FunctionInfo>, f: FunctionInfo)
    requires MethodsSpan(ts, fs) && MethodSpan(ts, f)
    ensures MethodsSpan(ts, fs.Put(f.name, f))
  {
  }

  lemma {:induction false} ClassesSpanPut(ts: seq<Token>, cs: Assoc<ClassInfo>, c: ClassInfo)
    requires ClassesSpan(ts, cs) && ClassSpan(ts, c) && MethodsSpan(ts, c.functions)
    ensures ClassesSpan(ts, cs.Put(c.name, c))
  {
  }

  lemma {:induction false} NestsNowhere(ts: seq<Token>, n: nat)
    requires n < |ts| && Nests(ts, n) && Run(ts, n).phase == Nowhere
    ensures Nests(ts, n + 1)
  {
    var st := Run(ts, n);
    assert Run(ts, n + 1) == Step(st, n, ts[n]);
  }

  lemma {:induction false} NestsInClass(ts: seq<Token>, n: nat)
    requires n < |ts| && Nests(ts, n) && Run(ts, n).phase == InClass
    ensures Nests(ts, n + 1)
  {
    var st := Run(ts, n);
    var s' := Run(ts, n + 1);
    assert s' == Step(st, n, ts[n]);
    if ts[n].kind == TString {
      assert ClassOpen(ts, n, st.nesting + 1, n + 1);
    }
  }

  lemma {:induction false} NestsClassCloses(ts: seq<Token>, n: nat)
    requires n < |ts| && Nests(ts, n)
    requires Run(ts, n).phase == NamedClass && ClassCloser(ts, n, Run(ts, n).curClass.nesting)
    ensures Nests(ts, n + 1)
  {
    var st := Run(ts, n);
    var s' := Run(ts, n + 1);
    assert s' == Step(st, n, ts[n]);
    var c := st.curClass.(endLexPos := n);
    assert ClassSpan(ts, c);
    ClassesSpanPut(ts, st.classes, c);
  }

  lemma {:induction false} NestsNamedClass(ts: seq<Token>, n: nat)
    requires n < |ts| && Inv(ts, n, Run(ts, n)) && Nests(ts, n) && Run(ts, n).phase == NamedClass
    ensures Nests(ts, n + 1)
  {
    var st := Run(ts, n);
    var s' := Run(ts, n + 1);
    assert s' == Step(st, n, ts[n]);
    if ClassCloser(ts, n, st.curClass.nesting) {
      NestsClassCloses(ts, n);
    } else {
      assert s'.classes == st.classes && s'.curClass == st.curClass;
      ClassOpenGrow(ts, st.curClass.startLexPos, st.curClass.nesting, n);
      if ts[n].kind == TFunction {
        NestsMethodStarts(ts, n);
      }
    }
  }

  lemma {:induction false} NestsMethodStarts(ts: seq<Token>, n: nat)
    requires n < |ts| && Inv(ts, n, Run(ts, n)) && Run(ts, n).phase == NamedClass && ts[n].kind == TFunction
    ensures CurrentMethodOpen(ts, n + 1, Run(ts, n + 1), n)
  {
    assert Run(ts, n + 1) == Step(Run(ts, n), n, ts[n]);
  }

  lemma {:induction false} NestsInFunction(ts: seq<Token>, n: nat)
    requires n < |ts| && Nests(ts, n) && Run(ts, n).phase == InFunction
    ensures Nests(ts, n + 1)
  {
    var st := Run(ts, n);
    var s' := Run(ts, n + 1);
    assert s' == Step(st, n, ts[n]);
    ClassOpenGrow(ts, st.curClass.startLexPos, st.curClass.nesting, n);
    var k :| CurrentMethodOpen(ts, n, st, k);
    MethodOpenGrow(ts, k, st.curFunction.nesting, n);
    assert CurrentMethodOpen(ts, n + 1, s', k);
  }

  lemma {:induction false} NestsMethodCloses(ts: seq<Token>, n: nat)
    requires n < |ts| && Nests(ts, n)
    requires Run(ts, n).phase == NamedFunction && MethodCloser(ts, n, Run(ts, n).curFunction.nesting)
    ensures Nests(ts, n + 1)
  {
    var st := Run(ts, n);
    var s' := Run(ts, n + 1);
    assert s' == Step(st, n, ts[n]);
    var f := st.curFunction.(endLexPos := n);
    var k :| CurrentMethodOpen(ts, n, st, k);
    assert MethodSpan(ts, f);
    MethodsSpanPut(ts, st.curClass.functions, f);
    ClassOpenGrow(ts, st.curClass.startLexPos, st.curClass.nesting, n);
  }

  lemma {:induction false} NestsNamedFunction(ts: seq<Token>, n: nat)
    requires n < |ts| && Nests(ts, n) && Run(ts, n).phase == NamedFunction
    ensures Nests(ts, n + 1)
  {
    var st := Run(ts, n);
    var s' := Run(ts, n + 1);
    assert s' == Step(st, n, ts[n]);
    if MethodCloser(ts, n, st.curFunction.nesting) {
      NestsMethodCloses(ts, n);
    } else {
      assert s'.classes == st.classes && s'.curClass == st.curClass && s'.phase == NamedFunction;
      ClassOpenGrow(ts, st.curClass.startLexPos, st.curClass.nesting, n);
      var k :| CurrentMethodOpen(ts, n, st, k);
      MethodOpenGrow(ts, k, st.curFunction.nesting, n);
      assert CurrentMethodOpen(ts, n + 1, s', k);
    }
  }

  /** Every step keeps the nesting discipline. */
  lemma {:induction false} StepKeepsNests(ts: seq<Token>, n: nat)
    requires n < |ts| && Inv(ts, n, Run(ts, n)) && Nests(ts, n)
    ensures Nests(ts, n + 1)
  {
    match Run(ts, n).phase
    case Nowhere => NestsNowhere(ts, n);
    case InClass => NestsInClass(ts, n);
    case NamedClass => NestsNamedClass(ts, n);
    case InFunction => NestsInFunction(ts, n);
    case NamedFunction => NestsNamedFunction(ts, n);
  }

  // ---------------------------------------------------------------------------
  // The second pass: each method's source text.

  function FunctionWithCode(ts: seq<Token>, f: FunctionInfo): FunctionInfo
    requires f.startLexPos <= f.endLexPos < |ts|
  {
    f.(code := Text(ts, f.startLexPos, f.endLexPos + 1))
  }

  /** Every method range of `fs` lies inside `ts`. */
  ghost predicate RangesIn(ts: seq<Token>, fs: Assoc<FunctionInfo>) {
    forall k :: k in fs.values ==> fs.values[k].startLexPos <= fs.values[k].endLexPos < |ts|
  }

  function FunctionsWithCode(ts: seq<Token>, fs: Assoc<FunctionInfo>): Assoc<FunctionInfo>
    requires RangesIn(ts, fs)
  {
    Assoc(fs.keys, map k | k in fs.values :: FunctionWithCode(ts, fs.values[k]))
  }

  function ClassWithCode(ts: seq<Token>, c: ClassInfo): ClassInfo
    requires RangesIn(ts, c.functions)
  {
    c.(functions := FunctionsWithCode(ts, c.functions))
  }

  ghost predicate AllRangesIn(ts: seq<Token>, cs: Assoc<ClassInfo>) {
    forall k :: k in cs.values ==> cs.values[k].functions.Valid() && RangesIn(ts, cs.values[k].functions)
  }

  lemma {:induction false} ClassesOkRanges(ts: seq<Token>, cs: Assoc<ClassInfo>)
    requires ClassesOk(ts, cs)
    ensures AllRangesIn(ts, cs)
  {
    forall k | k in cs.values ensures cs.values[k].functions.Valid() && RangesIn(ts, cs.values[k].functions) {
      assert ClassOk(ts, cs.values[k]);
    }
  }

  function WithCode(ts: seq<Token>, cs: Assoc<ClassInfo>): Assoc<ClassInfo>
    requires AllRangesIn(ts, cs)
  {
    Assoc(cs.keys, map k | k in cs.values :: ClassWithCode(ts, cs.values[k]))
  }

  // ---------------------------------------------------------------------------
  // Properties of a parse result that the compositor relies on.

  /** Every range lies inside the token sequence; each method lies before its
      class's closing brace and does not start at position 0. */
  ghost predicate ValidParse(p: ParseData) {
    && p.classes.Valid()
    && forall c :: c in p.classes.values ==> ClassInRange(p.classes.values[c], |p.lexes|)
  }

  ghost predicate ClassInRange(c: ClassInfo, n: nat) {
    && c.startLexPos < c.endLexPos < n
    && c.functions.Valid()
    && forall f :: f in c.functions.values ==>
         1 <= c.functions.values[f].startLexPos <= c.functions.values[f].endLexPos < c.endLexPos
  }

  /** Each method's code is the text of its token range. */
  ghost predicate CodesMatch(p: ParseData)
    requires ValidParse(p)
  {
    forall c, f :: c in p.classes.values && f in p.classes.values[c].functions.values ==>
      var fi := p.classes.values[c].functions.values[f];
      fi.code == Text(p.lexes, fi.startLexPos, fi.endLexPos + 1)
  }

  lemma {:induction false} ClassWithCodeFacts(ts: seq<Token>, c: ClassInfo)
    requires ClassOk(ts, c)
    ensures ClassOk(ts, ClassWithCode(ts, c))
    ensures forall f :: f in ClassWithCode(ts, c).functions.values ==>
      var fi := ClassWithCode(ts, c).functions.values[f];
      fi.code == Text(ts, fi.startLexPos, fi.endLexPos + 1)
  {
    var c' := ClassWithCode(ts, c);
    forall f | f in c'.functions.values
      ensures c'.functions.values[f].name == f && FunctionOk(ts, c'.functions.values[f], c'.endLexPos)
    {
      assert FunctionOk(ts, c.functions.values[f], c.endLexPos);
    }
  }

  lemma {:induction false} ClassOkInRange(ts: seq<Token>, c: ClassInfo)
    requires ClassOk(ts, c)
    ensures ClassInRange(c, |ts|)
  {
    forall f | f in c.functions.values
      ensures 1 <= c.functions.values[f].startLexPos <= c.functions.values[f].endLexPos < c.endLexPos
    {
      assert FunctionOk(ts, c.functions.values[f], c.endLexPos);
    }
  }

  lemma {:induction false} ClassesOkValid(ts: seq<Token>, cs: Assoc<ClassInfo>)
    requires ClassesOk(ts, cs)
    ensures ValidParse(ParseData(ts, cs))
  {
    forall k | k in cs.values ensures ClassInRange(cs.values[k], |ts|) {
      ClassOkInRange(ts, cs.values[k]);
    }
  }

  /** Storing the method texts keeps every recorded range and key. */
  lemma {:induction false} WithCodeOk(ts: seq<Token>, cs: Assoc<ClassInfo>)
    requires ClassesOk(ts, cs)
    ensures AllRangesIn(ts, cs)
    ensures ClassesOk(ts, WithCode(ts, cs))
  {
    ClassesOkRanges(ts, cs);
    var w := WithCode(ts, cs);
    forall k | k in w.values ensures w.values[k].name == k && ClassOk(ts, w.values[k]) {
      assert cs.values[k].name == k && ClassOk(ts, cs.values[k]);
      assert w.values[k] == ClassWithCode(ts, cs.values[k]);
      ClassWithCodeFacts(ts, cs.values[k]);
    }
    assert w.Valid() by {
      assert w.keys == cs.keys && w.values.Keys == cs.values.Keys;
    }
  }

  /** The method text stored by the code pass. */
  lemma {:induction false} CodeOf(ts: seq<Token>, cs: Assoc<ClassInfo>, c: string, f: string)
    requires AllRangesIn(ts, cs) && c in cs.values && f in cs.values[c].functions.values
    ensures c in WithCode(ts, cs).values && f in WithCode(ts, cs).values[c].functions.values
    ensures WithCode(ts, cs).values[c].functions.values[f] == FunctionWithCode(ts, cs.values[c].functions.values[f])
  {
  }

  lemma {:induction false} WithCodeFacts(ts: seq<Token>, cs: Assoc<ClassInfo>)
    requires ClassesOk(ts, cs)
    ensures AllRangesIn(ts, cs)
    ensures ClassesOk(ts, WithCode(ts, cs))
    ensures ValidParse(ParseData(ts, WithCode(ts, cs)))
    ensures CodesMatch(ParseData(ts, WithCode(ts, cs)))
  {
    WithCodeOk(ts, cs);
    var w := WithCode(ts, cs);
    ClassesOkValid(ts, w);
    forall c, f | c in w.values && f in w.values[c].functions.values
      ensures w.values[c].functions.values[f].code
           == Text(ts, w.values[c].functions.values[f].startLexPos, w.values[c].functions.values[f].endLexPos + 1)
    {
      CodeOf(ts, cs, c, f);
    }
  }

  /** The specification of `parse_php` on an already-lexed file. */
  function ParseSpec(raw: seq<RawLexeme>): (p: ParseData)
    ensures p.lexes == Normalised(raw)
    ensures ValidParse(p) && CodesMatch(p) && ClassesOk(p.lexes, p.classes)
  {
    var ts := Normalised(raw);
    RunKeepsInv(ts, |ts|);
    ClassesOkRanges(ts, Run(ts, |ts|).classes);
    WithCodeFacts(ts, Run(ts, |ts|).classes);
    ParseData(ts, WithCode(ts, Run(ts, |ts|).classes))
  }

  // ---------------------------------------------------------------------------
  // The loops of `parse_php`.

  /** The scan loop (the second `foreach` of `parse_php`). */
  method ScanLexemes(lexes: seq<Token>) returns (classes: Assoc<ClassInfo>)
    ensures classes == Run(lexes, |lexes|).classes
  {
    classes := Empty();
    var state := Nowhere;
    var nesting := 0;
    var pubPrivProt: Option<Modifier> := None;
    var curClass := NewClass();
    var curFunction := FunctionInfo("", 0, "public", 0, 0, "");
    var curlyOpenMode := false;
    var lexPos := 0;
    while lexPos < |lexes|
      invariant 0 <= lexPos <= |lexes|
      invariant ScanState(state, nesting, pubPrivProt, curClass, curFunction, curlyOpenMode, classes)
             == Run(lexes, lexPos)
    {
      ghost var before := ScanState(state, nesting, pubPrivProt, curClass, curFunction, curlyOpenMode, classes);
      var lex := lexes[lexPos];
      var lexType := lex.kind;
      if state == Nowhere {
        if lexType == TClass {
          state := InClass;
          curClass := NewClass();
        }
      } else if state == InClass {
        if lexType == TString {
          curClass := curClass.(name := lex.text, nesting := nesting + 1, startLexPos := lexPos);
          state := NamedClass;
        }
      } else if state == NamedClass {
        if lexType == UString {
          if lex.text == "{" {
            nesting := nesting + 1;
          } else if lex.text == "}" {
            nesting := nesting - 1;
            if nesting < curClass.nesting {
              curClass := curClass.(endLexPos := lexPos);
              classes := classes.Put(curClass.name, curClass);
              state := Nowhere;
            }
          }
        } else if lexType == TPublic || lexType == TPrivate || lexType == TProtected {
          pubPrivProt := Some(Modifier(lex.text, lexPos));
        } else if lexType == TVariable {
          pubPrivProt := None;
        } else if lexType == TFunction {
          curFunction := FunctionInfo("", nesting + 1, "public", lexPos, 0, "");
          state := InFunction;
        }
      } else if state == InFunction {
        if lexType == TString {
          state := NamedFunction;
          curlyOpenMode := false;
          curFunction := curFunction.(name := lex.text);
          if pubPrivProt.Some? && Truthy(pubPrivProt.value.name) {
            curFunction := curFunction.(access := pubPrivProt.value.name,
                                        startLexPos := pubPrivProt.value.lexPos);
          }
        }
      } else {
        if lexType == TCurlyOpen {
          curlyOpenMode := true;
        } else if lexType == UString {
          if lex.text == "{" {
            nesting := nesting + 1;
          } else if lex.text == "}" {
            if curlyOpenMode {
              curlyOpenMode := false;
            } else {
              nesting := nesting - 1;
              if nesting < curFunction.nesting {
                curFunction := curFunction.(endLexPos := lexPos);
                curClass := curClass.(functions := curClass.functions.Put(curFunction.name, curFunction));
                state := NamedClass;
              }
            }
          }
        }
      }
      assert ScanState(state, nesting, pubPrivProt, curClass, curFunction, curlyOpenMode, classes)
          == Step(before, lexPos, lex);
      lexPos := lexPos + 1;
    }
  }

  /** The innermost loop of the code pass: the text of one method's range. */
  method MethodCode(lexes: seq<Token>, func: FunctionInfo) returns (code: string)
    requires func.startLexPos <= func.endLexPos < |lexes|
    ensures code == Text(lexes, func.startLexPos, func.endLexPos + 1)
  {
    code := "";
    var i := func.startLexPos;
    while i < func.endLexPos + 1
      invariant func.startLexPos <= i <= func.endLexPos + 1
      invariant code == Text(lexes, func.startLexPos, i)
    {
      code := code + lexes[i].text;
      i := i + 1;
    }
  }

  /** The code pass over one class's methods. */
  method ClassCode(lexes: seq<Token>, fs: Assoc<FunctionInfo>) returns (fns: Assoc<FunctionInfo>)
    requires fs.Valid() && RangesIn(lexes, fs)
    ensures fns == FunctionsWithCode(lexes, fs)
  {
    var values := fs.values;
    var fi := 0;
    while fi < |fs.keys|
      invariant 0 <= fi <= |fs.keys|
      invariant values.Keys == fs.values.Keys
      invariant forall k :: k in values ==>
        values[k] == if k in fs.keys[..fi] then FunctionWithCode(lexes, fs.values[k]) else fs.values[k]
    {
      var funcName := fs.keys[fi];
      var func := fs.values[funcName];
      var code := MethodCode(lexes, func);
      assert fs.keys[..fi + 1] == fs.keys[..fi] + [funcName];
      values := values[funcName := func.(code := code)];
      fi := fi + 1;
    }
    assert fs.keys[..fi] == fs.keys;
    fns := Assoc(fs.keys, values);
  }

  /** The code pass (the last loop of `parse_php`): store each method's text. */
  method CollectCode(lexes: seq<Token>, classes: Assoc<ClassInfo>) returns (result: Assoc<ClassInfo>)
    requires classes.Valid() && AllRangesIn(lexes, classes)
    ensures result == WithCode(lexes, classes)
  {
    var values := classes.values;
    var ci := 0;
    while ci < |classes.keys|
      invariant 0 <= ci <= |classes.keys|
      invariant values.Keys == classes.values.Keys
      invariant forall k :: k in values ==>
        values[k] == if k in classes.keys[..ci] then ClassWithCode(lexes, classes.values[k]) else classes.values[k]
    {
      var className := classes.keys[ci];
      var cls := classes.values[className];
      var fns := ClassCode(lexes, cls.functions);
      assert classes.keys[..ci + 1] == classes.keys[..ci] + [className];
      assert cls.(functions := fns) == ClassWithCode(lexes, cls);
      values := values[className := cls.(functions := fns)];
      ci := ci + 1;
    }
    assert classes.keys[..ci] == classes.keys;
    result := Assoc(classes.keys, values);
  }

  /** `parse_php` on an already-lexed file: normalise, scan, collect method texts. */
  method ParsePhp(raw: seq<RawLexeme>) returns (p: ParseData)
    ensures p == ParseSpec(raw)
  {
    var lexes := NormaliseLexemes(raw);
    var scanned := ScanLexemes(lexes);
    RunKeepsInv(lexes, |lexes|);
    ClassesOkRanges(lexes, scanned);
    var classes := CollectCode(lexes, scanned);
    p := ParseData(lexes, classes);
  }

  /** Storing the method texts keeps every span. */
  lemma {:induction false} MethodSpanWithCode(ts: seq<Token>, f: FunctionInfo)
    requires f.startLexPos <= f.endLexPos < |ts| && MethodSpan(ts, f)
    ensures MethodSpan(ts, FunctionWithCode(ts, f))
  {
    var k :| f.startLexPos <= k && MethodOpen(ts, k, f.nesting, f.endLexPos);
    assert MethodOpen(ts, k, FunctionWithCode(ts, f).nesting, f.endLexPos);
  }

  lemma {:induction false} WithCodeSpans(ts: seq<Token>, cs: Assoc<ClassInfo>)
    requires AllRangesIn(ts, cs) && ClassesSpan(ts, cs)
    ensures ClassesSpan(ts, WithCode(ts, cs))
  {
    var w := WithCode(ts, cs);
    forall c | c in w.values
      ensures ClassSpan(ts, w.values[c]) && MethodsSpan(ts, w.values[c].functions)
    {
      assert w.values[c] == ClassWithCode(ts, cs.values[c]);
      forall f | f in w.values[c].functions.values
        ensures MethodSpan(ts, w.values[c].functions.values[f])
      {
        CodeOf(ts, cs, c, f);
        assert MethodSpan(ts, cs.values[c].functions.values[f]);
        MethodSpanWithCode(ts, cs.values[c].functions.values[f]);
      }
    }
  }

  /** Every class and method of a parse result keeps the nesting discipline. */
  lemma {:induction false} ParseSpans(raw: seq<RawLexeme>)
    ensures ClassesSpan(ParseSpec(raw).lexes, ParseSpec(raw).classes)
  {
    var ts := Normalised(raw);
    RunKeepsInv(ts, |ts|);
    ClassesOkRanges(ts, Run(ts, |ts|).classes);
    WithCodeSpans(ts, Run(ts, |ts|).classes);
  }

  /** What a parse result records for each class: one token per lexeme; the
      class is keyed by the identifier at its start and ends at the first
      class-level "}" that takes the nesting below the level it entered. */
  lemma {:induction false} ParseFacts(raw: seq<RawLexeme>)
    ensures var p := ParseSpec(raw);
      |p.lexes| == |raw|
    ensures var p := ParseSpec(raw);
      forall c :: c in p.classes.values ==>
        var ci := p.classes.values[c];
        && ci.name == c && ci.startLexPos < ci.endLexPos < |p.lexes|
        && p.lexes[ci.startLexPos].kind == TString && p.lexes[ci.startLexPos].text == c
        && IsPunct(p.lexes[ci.endLexPos], "}")
        && ClassSpan(p.lexes, ci)
  {
    var p := ParseSpec(raw);
    ParseSpans(raw);
    forall c | c in p.classes.values
      ensures p.lexes[p.classes.values[c].startLexPos].text == c
    {
      assert ClassOk(p.lexes, p.classes.values[c]);
    }
  }

  /** What a parse result records for each method: it is keyed by its name,
      ends at a "}" before its class's, starts at its modifier or its `function`
      keyword, and holds the text of its range as its code. */
  lemma {:induction false} ParseMethodFacts(raw: seq<RawLexeme>, c: string, f: string)
    requires c in ParseSpec(raw).classes.values
    requires f in ParseSpec(raw).classes.values[c].functions.values
    ensures var p := ParseSpec(raw);
      var ci := p.classes.values[c];
      var fi := ci.functions.values[f];
      && fi.name == f
      && 1 <= fi.startLexPos <= fi.endLexPos < ci.endLexPos
      && IsPunct(p.lexes[fi.endLexPos], "}")
      && StartOk(p.lexes, fi)
      && fi.code == Concat(p.lexes[fi.startLexPos..fi.endLexPos + 1])
  {
    MethodFactsOf(ParseSpec(raw), c, f);
  }

  lemma {:induction false} MethodFactsOf(p: ParseData, c: string, f: string)
    requires ValidParse(p) && CodesMatch(p) && ClassesOk(p.lexes, p.classes)
    requires c in p.classes.values && f in p.classes.values[c].functions.values
    ensures var ci := p.classes.values[c];
      var fi := ci.functions.values[f];
      && fi.name == f
      && 1 <= fi.startLexPos <= fi.endLexPos < ci.endLexPos
      && IsPunct(p.lexes[fi.endLexPos], "}")
      && StartOk(p.lexes, fi)
      && fi.code == Concat(p.lexes[fi.startLexPos..fi.endLexPos + 1])
  {
    assert ClassOk(p.lexes, p.classes.values[c]);
    var fi := p.classes.values[c].functions.values[f];
    assert FunctionOk(p.lexes, fi, p.classes.values[c].endLexPos);
    TextIsConcat(p.lexes, fi.startLexPos, fi.endLexPos + 1);
  }

  /** Each method of a parse result ends at the first "}" of its body, other
      than one ending a `{$`, that takes the nesting below the level its
      `function` keyword entered. */
  lemma {:induction false} ParseMethodSpan(raw: seq<RawLexeme>, c: string, f: string)
    requires c in ParseSpec(raw).classes.values
    requires f in ParseSpec(raw).classes.values[c].functions.values
    ensures MethodSpan(ParseSpec(raw).lexes, ParseSpec(raw).classes.values[c].functions.values[f])
  {
    ParseSpans(raw);
    var p := ParseSpec(raw);
    assert MethodsSpan(p.lexes, p.classes.values[c].functions);
  }
}
