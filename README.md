# Monkey patching: a Dafny model of the patch compositor

The PHP monkey-patching module lets a "patch" tree override classes of a
"base" tree method by method. For every overridden file it builds a patched
copy: the module lexes the source file and the patch file, records where every
class and method lies (`parse_php`), and splices the patch's methods into the
source. A source method the patch redefines is replaced by the patch method,
followed by the source method renamed to `old_<Class>_<method>_mp`. A method
only the patch has goes in just before the source class's closing brace
(`construct_patched_file_data`). The outcome is cached together with the
fingerprints of the three files involved (`getFileVersionInfo`). A later run
reuses it while the fingerprints still match (`isFileVersionInfoChanged`). It
stops the program when the source file changed under a patch whose replaced
methods no longer agree with the cache (`createPatchInfo`).

This project models that core and proves what it guarantees:

- `php_values.dfy` (`PhpValues`): PHP's ordered arrays, `Assoc`. Storing under
  an existing key keeps its position; a new key is appended.
- `tokens.dfy` (`Tokens`): normalising raw lexemes into uniform tokens, and
  rendering tokens back to text.
- `scanner.dfy` (`Scanner`): the five-phase scan of `parse_php`. It is a step
  function `Step` folded by `Run`, with an invariant that every recorded range
  satisfies. A second invariant, the nesting discipline, says where each range
  ends. A class is entered one level above the nesting at its name. It ends at
  the first class-level "}" that takes the nesting below that level. A method
  ends likewise, inside its body, at the first "}" that takes the nesting below
  the level its `function` keyword entered. A "}" that ends a `{$`
  interpolation does not count. The methods `ScanLexemes` and `ParsePhp` are
  the loops, proved equal to that specification.
- `scanner_examples.dfy` (`ScannerExamples`): a worked scan, over a given
  sequence of 17 tokens. It shows that a visibility modifier stays pending
  after the method it belonged to.
- `splice.dfy` (`Splice`): `array_replace_partly`, and the sequence of
  splices the compositor applies. It also holds an independent reference
  (`Merge`) that the splices agree with when they come in descending order.
- `compositor.dfy` (`Compositor`): `get_old_function_name`, the renaming, the
  summary block, and `construct_patched_file_data` as nested loops. The loops
  are proved equal to a specification (`ComposeSpec`) built from the list of
  splices they perform.
- `compositor_props.dfy` (`CompositorProperties`): what the compositor
  guarantees. It covers which methods are reported as replaced and with what
  code, which tokens are kept, and when the result is the reference merge.
- `versions.dfy` (`Versions`): file fingerprints and the staleness test.
- `patch_info.dfy` (`PatchInfo`): the decision `createPatchInfo` takes, the
  records it writes, and the patcher object (`class MonkeyPatching`) with the
  registry it fills.

The file system, the cache, the version files and PHP's lexer are inputs:
- a file's stat is a `FileStat` value (missing, or size, change time and md5);
- the cache read is an `Option<PatchRecord>`;
- the version file is a `VersionFile` value;
- the lexer's output is a sequence of `RawLexeme`s.

What `createPatchInfo` writes (the patched copy, the version record, the cache
entry) is returned as outputs. `die` is modelled as a `Decision` that halts.

Behaviour of the code worth knowing, all proved or stated in the model:

- A visibility modifier is never cleared when a method closes. A later
  method declared without a modifier therefore starts at the earlier method's
  modifier, and the two recorded ranges overlap
  (`ScannerExamples.StaleModifier`). Only a class-level modifier or variable
  changes the pending modifier (`Scanner.PendingStep`). So it also survives a
  class's closing brace and the next class's header
  (`Scanner.PendingSurvives`). With the step at a method's name, which starts
  the method at a pending truthy modifier, this means that in
  `class A { public function f() {} } class B { function g() {} }` the method
  `g` of `B` is recorded from the `public` of `A`. Its range then starts
  before its own class's name. Because of it, the agreement with the
  reference merge is proved under the hypothesis that ranges are separated
  (`CompositorProperties.ComposeIsMerge`). It is not claimed for every parse.
- Every splice uses the positions of the original source parse. The edited
  token sequence is never re-indexed; the closure `$recomputeLexemPositions`
  that would do it is defined and never called. All new methods of a class go
  in at the same position, just before the closing brace. Each one lands in
  front of those spliced before it, so they end up in reverse patch order.
- Methods are keyed by name alone. Same-named methods of different classes
  share one entry of `replaced_functions`. Its value is the code of one of
  those classes' methods (`CompositorProperties.ReplacedFunctions`); which
  class that is, is not stated.
  Shadow names can collide: `get_old_function_name("A_b", "c")` equals
  `get_old_function_name("A", "b_c")` (`Compositor.OldNameCollides`).
- A class that never closes is not recorded, and neither are its methods.
- A source class the patch does not define gets no splices; PHP's warning on
  iterating over null is not modelled.
- The staleness test trusts the change time. A file whose size and change
  time match the fingerprint is unchanged, whatever its contents, unless md5
  is forced (`Versions.CtimeIsTrusted`). A file whose change time moved but
  whose md5 matches asks for a fingerprint update. In `createPatchInfo` each
  check overwrites the request of the one before. Only the last check's
  request counts, the one on the patched copy. A touched but unmodified source
  or patch file is therefore reused without a refreshed fingerprint
  (`PatchInfo.SourceTouchIgnored`). That lasts while the cache entry is
  readable: `getCache` drops an entry older than `CACHE_PATCH_INFO`
  (1200 seconds), and the recomputation that follows takes new fingerprints.
- For a fully replaceable file the patched file is the patch file itself.
  The cache check, however, stats the copy at the cache path, which is never
  written for such a file. So a cache hit needs a file at that path
  (`PatchInfo.FullHitNeedsCacheCopy`). A record just written for such a file
  is reused exactly when a file with the patch's size and change time sits
  there (`PatchInfo.RecomputedIsReused`).
- A version file that cannot be unserialised reads, in the fully replaceable
  branch, as the fingerprints of a missing file. PHP's `null` compares
  loosely equal to `0` and `""`.
- A failed cache read always recomputes. It never halts
  (`PatchInfo.CacheMissRecomputes`).
- The pattern `#.html$#` treats its `.` as "any character but a newline".
  So `xhtml` is fully replaceable, and so is a name with a trailing newline
  (`PatchInfo.PatternExamples`).

## Model

All source paths are in `src/monkey_patching/MonkeyPatching.php`.

| member | source | states |
|---|---|---|
| Tokens.NormaliseLexemes | src/monkey_patching/MonkeyPatching.php:714-726 | one token per lexeme, in order. A lexed triple keeps its kind, text and line. A bare string becomes a U_STRING token whose line is that of the last triple before it, or none if no triple comes before it |
| Tokens.LexesToString | src/monkey_patching/MonkeyPatching.php:1059-1067 | the result is the texts of all tokens, concatenated in order without separators |
| Tokens.ConcatAppend | src/monkey_patching/MonkeyPatching.php:1059-1067 | rendering the concatenation of two token sequences is the concatenation of their renderings |
| Tokens.TextIsConcat | src/monkey_patching/MonkeyPatching.php:852-860 | the code gathered for a range of positions is the rendering of that slice of tokens |
| Splice.ArrayReplacePartly | src/monkey_patching/MonkeyPatching.php:1029-1052 | the result is dest's first df elements, then src[sf..st], then dest from dt+1 on, with the corresponding length. The bounds required are those under which each of PHP's `range` calls counts upward |
| Splice.PrefixConserved | src/monkey_patching/MonkeyPatching.php:947-951 | whatever their order, splices that all start at or after position m leave the first m elements unchanged |
| Splice.SuffixConserved | src/monkey_patching/MonkeyPatching.php:1001-1005 | whatever their order, splices that all end at or before position m leave the elements from m on unchanged, at the end of the result |
| Splice.ApplyIsMerge | src/monkey_patching/MonkeyPatching.php:931-1009 | splices applied one after another at original positions, in descending non-overlapping order, give exactly the reference merge built from slices of the original |
| Scanner.StepKeepsInv | src/monkey_patching/MonkeyPatching.php:738-848 | each scan step keeps the invariant. A recorded class starts at its name identifier, ends at a "}" after it, and holds only methods that close before it. A recorded method starts at a truthy visibility modifier or at its `function` keyword (access "public"), ends at a "}", and neither boundary is position 0. Which "}" ends each range is the nesting discipline's part (`Scanner.StepKeepsNests`) |
| Scanner.RunKeepsInv | src/monkey_patching/MonkeyPatching.php:728-848 | after every prefix of the token sequence, starting from the initial loop state, both the invariant and the nesting discipline hold. Every recorded class was entered one level above the nesting at its name. The scan stayed inside it up to its closing brace, and that brace is the first class-level "}" to take the nesting below the entry level. It lowers the nesting by one and leaves the class. Every recorded method was entered one level above the nesting at its `function` keyword, which comes at or after its start. The scan stayed inside it up to its closing brace, and that brace is the first "}" of its body to take the nesting below the entry level, a "}" ending a `{$` excepted. The class or method still open keeps the same discipline so far |
| Scanner.StepKeepsNests | src/monkey_patching/MonkeyPatching.php:751-847 | each scan step keeps the nesting discipline: for recorded ranges, for the class and method still open, and for the opening of a class at its name and of a method at its `function` keyword |
| Scanner.ClassOpenMeans | src/monkey_patching/MonkeyPatching.php:759-786 | a class named at `start` is open after n tokens exactly when it was entered one level above the nesting at its name, every state since is inside it, and no class-level "}" before n took the nesting below that level |
| Scanner.MethodOpenMeans | src/monkey_patching/MonkeyPatching.php:797-846 | a method whose `function` keyword is at k is open after n tokens exactly when that keyword was read at class level, the method was entered one level above the nesting there, every state since is inside it, and no "}" of its body before n took the nesting below that level, a "}" ending a `{$` excepted |
| Scanner.CurlyOpenBraceIgnored | src/monkey_patching/MonkeyPatching.php:819-834 | in a method body, a `{$` followed by "}" leaves the nesting and the phase unchanged, and that "}" closes nothing |
| Scanner.PendingStep | src/monkey_patching/MonkeyPatching.php:789-796 | the pending modifier is set by a class-level modifier (its text and position) and cleared by a class-level variable. No other token in any phase changes it |
| Scanner.PendingSurvives | src/monkey_patching/MonkeyPatching.php:751-847 | across any stretch of tokens containing no class-level modifier or variable, including method and class ends and the next class's header, the pending modifier is the same at both ends |
| Scanner.ScanLexemes | src/monkey_patching/MonkeyPatching.php:728-848 | the scan loop's classes are those of the phase-machine specification run over all tokens |
| Scanner.MethodCode | src/monkey_patching/MonkeyPatching.php:854-858 | a method's code is the text of the tokens from its start to its end, inclusive |
| Scanner.CollectCode | src/monkey_patching/MonkeyPatching.php:850-861 | the classes come back with each method's code filled in, and nothing else changed |
| Scanner.ParsePhp | src/monkey_patching/MonkeyPatching.php:705-865 | `parse_php` returns the normalised tokens and the scanned classes with their code; the specification it equals guarantees every recorded range lies inside the tokens |
| Scanner.ParseFacts | src/monkey_patching/MonkeyPatching.php:759-802 | there is one token per lexeme. Every recorded class is keyed by its name and starts at an identifier spelled that name. It ends at a "}" after it, the first class-level "}" to take the nesting below the level the class entered |
| Scanner.ParseMethodFacts | src/monkey_patching/MonkeyPatching.php:789-847 | every recorded method is keyed by its name. Its range starts after position 0, at a modifier or at `function`, and ends at a "}" before its class's closing brace. Its code is the rendering of its token range |
| Scanner.ParseMethodSpan | src/monkey_patching/MonkeyPatching.php:797-847 | every recorded method of a parse ends at the first "}" of its body to take the nesting below the level its `function` keyword entered, a "}" ending a `{$` excepted |
| ScannerExamples.StaleModifier | src/monkey_patching/MonkeyPatching.php:789-801 | over the 17 tokens `class`, `A`, `{`, `public`, `function`, `f`, `(`, `)`, `{`, `}`, `function`, `g`, `(`, `)`, `{`, `}`, `}` (the text `class A { public function f() {} function g() {} }` without whitespace tokens, which the lexer would also emit), f is recorded at [3, 9] and g at [3, 15]. g starts at f's modifier, so the ranges overlap |
| Compositor.OldNameShape | src/monkey_patching/MonkeyPatching.php:874-877 | the shadow name is "old_", the class name, "_", the method name and "_mp", in that order |
| Compositor.OldNameDiffers | src/monkey_patching/MonkeyPatching.php:874-877 | the shadow name never equals the method's own name |
| Compositor.OldNameInjective | src/monkey_patching/MonkeyPatching.php:874-877 | within one class, different methods get different shadow names |
| Compositor.OldNameCollides | src/monkey_patching/MonkeyPatching.php:874-877 | across classes shadow names can collide: ("A_b", "c") and ("A", "b_c") give the same name |
| Compositor.RenameFacts | src/monkey_patching/MonkeyPatching.php:980-989 | renaming keeps every token's kind and line. It changes the text only of identifier tokens spelled the method name, and those get exactly the new name |
| Compositor.RenameRemoves | src/monkey_patching/MonkeyPatching.php:980-989 | after renaming to a different name, no identifier token spelled the old name remains |
| Compositor.RenameIdle | src/monkey_patching/MonkeyPatching.php:980-989 | renaming a block without an identifier of that name changes nothing |
| Compositor.OverrideBlockShape | src/monkey_patching/MonkeyPatching.php:970-989 | the summary block is the patch method's tokens, one U_STRING "\n" token, then the source method's tokens renamed to the shadow name; its text is the patch method's text, a newline and the renamed source text |
| Compositor.SummaryLexes | src/monkey_patching/MonkeyPatching.php:970-989 | the loops building `$summaryLexes` produce exactly that summary block |
| Compositor.OverrideFunction | src/monkey_patching/MonkeyPatching.php:1001-1005 | the tokens so far with the source method's original range replaced by the summary block |
| Compositor.InsertNewMethods | src/monkey_patching/MonkeyPatching.php:939-957 | the tokens so far with, for each patch method the source class lacks, in patch order, the patch method spliced in at the source class's closing brace |
| Compositor.OverrideMethods | src/monkey_patching/MonkeyPatching.php:960-1009 | the tokens so far with every source method the patch class also defines replaced, last to first, by its summary block; each such method's source code is stored under its name |
| Compositor.ConstructPatchedFileData | src/monkey_patching/MonkeyPatching.php:890-1017 | the result equals the specification: classes visited last to first, each one's insertions and then its overrides applied at the original positions; the file is the rendering of the resulting tokens |
| CompositorProperties.ReplacedFunctions | src/monkey_patching/MonkeyPatching.php:993 | a name is in `replaced_functions` exactly when some class of both files defines a method of that name in both, and its value is that source method's recorded code in one of those classes |
| CompositorProperties.ReplacedCode | src/monkey_patching/MonkeyPatching.php:993 | on a parse result, each value in `replaced_functions` is the source text of the range of an overridden method of that name |
| CompositorProperties.InsertEditsAtEnd | src/monkey_patching/MonkeyPatching.php:947-951 | every splice of a new method is an insertion at the source class's closing brace, which is kept after the inserted text |
| CompositorProperties.PrefixKept | src/monkey_patching/MonkeyPatching.php:918-1013 | the tokens before the first recorded method start and class end come through unchanged |
| CompositorProperties.SuffixKept | src/monkey_patching/MonkeyPatching.php:918-1013 | the tokens from the last class's closing brace on come through unchanged, at the end of the result |
| CompositorProperties.NoSharedClassIdentity | src/monkey_patching/MonkeyPatching.php:931-1013 | when no source class is also a patch class, the result is the source tokens and text unchanged, and no function is reported replaced |
| CompositorProperties.ComposeIsMerge | src/monkey_patching/MonkeyPatching.php:931-1013 | when classes and methods lie one after another in key order without overlap, the splices are descending and the result is the reference merge of the source with them |
| Versions.FreshIsUnchanged | src/monkey_patching/MonkeyPatching.php:629-687 | testing an existing file against a fingerprint just taken of it reports no change and asks for no update |
| Versions.MissingIsChanged | src/monkey_patching/MonkeyPatching.php:629-664 | a missing file is always changed, even against the fingerprint of a missing file |
| Versions.UnchangedMeans | src/monkey_patching/MonkeyPatching.php:629-664 | no change is reported exactly when the file exists with the recorded size and has the recorded change time or the recorded md5, and, when md5 is forced, the recorded md5 |
| Versions.NeedUpdateMeans | src/monkey_patching/MonkeyPatching.php:629-664 | an update is requested exactly when the file is kept as unchanged although its change time moved |
| Versions.CtimeIsTrusted | src/monkey_patching/MonkeyPatching.php:640-647 | for an existing file with the recorded size and change time, no change is reported without forced md5. With forced md5, a change is reported exactly when the md5 differs |
| PatchInfo.CheckFile | src/monkey_patching/MonkeyPatching.php:503 | `file_exists && !isFileVersionInfoChanged`: the result is freshness; the update flag is overwritten only when the file exists |
| PatchInfo.CheckCache | src/monkey_patching/MonkeyPatching.php:490-568 | the cache-checking branch, with the update flag threaded through the checks in order, reaches the decision `Decide` specifies |
| PatchInfo.ChangedFunctionNames | src/monkey_patching/MonkeyPatching.php:509-521 | a name is listed exactly when the current replaced functions contain it and the cached ones lack it or hold other code; the list is in key order |
| PatchInfo.ChangedNamesMeans | src/monkey_patching/MonkeyPatching.php:509-521 | the specification of the changed-function list holds exactly the changed names |
| PatchInfo.CacheMissRecomputes | src/monkey_patching/MonkeyPatching.php:490-568 | a failed cache read always recomputes and never halts |
| PatchInfo.HitMeans | src/monkey_patching/MonkeyPatching.php:490-568 | the cache is reused exactly when the cache read succeeded, a record was read (or, for a fully replaceable file, an unreadable one), the source is fresh, the patch and the patched copy are fresh, and the last check asked for no update |
| PatchInfo.HitFiles | src/monkey_patching/MonkeyPatching.php:532-535 | a hit requires the patch file and the patched copy to exist with their recorded sizes, and the copy with its recorded change time |
| PatchInfo.SourceTouchIgnored | src/monkey_patching/MonkeyPatching.php:503-536 | a source file and a patch file with new change times but their recorded sizes and md5 sums each ask for an update. The patched-copy check overwrites those requests, so the readable cache entry is still reused and neither fingerprint is refreshed |
| PatchInfo.FullHaltMeans | src/monkey_patching/MonkeyPatching.php:542-556 | a fully replaceable file halts exactly when the cache read succeeded, a version file exists and the source is not fresh against it; it never halts for changed functions |
| PatchInfo.ChangedHaltMeans | src/monkey_patching/MonkeyPatching.php:493-527 | a partially patched file halts exactly when the cache read succeeded, a record was read, the source is not fresh and some current replaced function is changed; the names reported are distinct and exactly those changed |
| PatchInfo.SameFunctionsRecompute | src/monkey_patching/MonkeyPatching.php:503-527 | a changed source whose replaced functions all keep their cached code recomputes rather than halting |
| PatchInfo.FullHitNeedsCacheCopy | src/monkey_patching/MonkeyPatching.php:558-586 | for a fully replaceable file, no copy at the cache path means no hit; the record written names the patch file as the patched file, with the patch's fingerprint |
| PatchInfo.RecomputedIsReused | src/monkey_patching/MonkeyPatching.php:571-601 | for a partly patched file, checking a freshly written record against the same source, patch and written copy gives a cache hit. For a fully replaceable file, whose copy at the cache path is not written, it gives a hit exactly when a file with the patch's size and change time is at that path |
| PatchInfo.PatternExamples | src/monkey_patching/MonkeyPatching.php:68 | `#.html$#` matches "a.html", "xhtml" and "a.html\n", but not "html" |
| PatchInfo.MonkeyPatching.constructor | src/monkey_patching/MonkeyPatching.php:157-201 | the object holds the resolved paths, the default pattern list and empty registries |
| PatchInfo.MonkeyPatching.IsToBePatched | src/monkey_patching/MonkeyPatching.php:208-213 | the answer is whether the file is registered, and it is stored under the file name in `filesExamined` |
| PatchInfo.MonkeyPatching.IsFullReplacable | src/monkey_patching/MonkeyPatching.php:446-466 | a registered file answers from its entry; any other file is fully replaceable exactly when some pattern matches it |
| PatchInfo.MonkeyPatching.GetPatchedFilename | src/monkey_patching/MonkeyPatching.php:689-693 | a registered file gives its record's patched file; any other gives null |
| PatchInfo.MonkeyPatching.CreatePatchInfo | src/monkey_patching/MonkeyPatching.php:472-611 | the decision is the specified one for the file's fully-replaceable status before the call. A halt changes nothing. A hit registers the cached record. A recomputation writes the specified record (and, for a partial patch, the composed file text) and registers it under the full base path |

## Left out

- The lexer (`token_get_all`) is not modelled. Its output is the input, as raw lexemes whose kinds are reduced to those the scan distinguishes.
- U_STRING's numeric value (50000) could coincide with a real token id. The model gives U_STRING its own kind, so no clash is modelled.
- PHP's loose `==` is modelled as plain equality, both on md5 sums and on method code. Numeric-looking strings that PHP would compare as numbers (such as "0e1" and "0e2") are not modelled.
- Reading and writing files, `chmod`, and the cache backend (`getCache`/`setCache`) are left out. What they read is a parameter and what they write is a result. Whatever fields an array left by `getCache` carries besides the five written is not modelled, and the cached value is taken to be an array.
- The text of the `die` messages is left out. The model records only which halt happens and, for changed functions, the names.
- General regular-expression matching is left out. Only patterns of the shape `#.X$#` with a literal X are modelled, which covers the default.
- `PatchInfo.MonkeyPatching.constructor`: it does not model resolving the paths (`realpath`, existence and writability checks), their defaults, the installation as a singleton, or stream-wrapper registration. It takes the resolved paths as given.
- The file-tree scan that calls `createPatchInfo` for every patch file is not modelled. Neither are the stream wrapper, the include hook, `getContext`/`setContext`, or the getter/setter base class (`BaseGetterSetter.php` is not part of this model).
- The never-called closure `$recomputeLexemPositions` and the debugging output are left out. The unused scan variables (`$lines`, `$lastSpecifier`) are left out too.
- PHP warnings (iterating over a missing patch class, an undefined line for a bare lexeme before any triple) and notices are not modelled. The behaviour after them is.
- `Compositor.ConstructPatchedFileData`: it requires inputs that `parse_php` can produce, with every recorded range inside the tokens; `Scanner.ParseSpec` guarantees this for every parse.
- The expiry of cache entries after `CACHE_PATCH_INFO` seconds (the creation-time test in `getCache`) is not modelled. It depends on the clock; the cache read's outcome is an input.
- `CompositorProperties.ComposeIsMerge`: it is stated only for parses whose ranges are separated. Because of the stale modifier, `parse_php` can record overlapping method ranges, and for those the splices at original positions are not a merge.
