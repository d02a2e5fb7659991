# Bosun alert dependency ordering, modelled in Dafny

Bosun's configuration defines alerts, macros, notifications and lookups. Each
of these blocks may name others: `depends = alert("x", "warn")` names an
alert, `macro = m` names a macro, and `warnNotification = n` or
`critNotification = n` names a notification. For each alert, the
configuration assembles a template string: the text of every block the alert
depends on, dependencies first, then the alert itself. The dependency tests in
`cmd/bosun/conf/dependencies_test.go` check this order. They read the block
headers back out of the assembled template with the helper
`templateToSequence`, and compare the comma-joined names with a fixed
expectation.

The project models both halves and the link between them:

- `config.dfy` (module `Config`): kinds, keys `(kind, name)`, the fields
  that carry references, and reference extraction in declaration order.
- `resolver.dfy` (module `Resolver`): the resolution of one alert.
  - It is a depth-first walk over references in declaration order.
  - It emits each entity after everything it references (postorder).
  - It skips entities already emitted.
  - It fails on a cycle, or on a reference to an entity that is not defined.
  - Proved about it: the root comes last, nothing is emitted twice, and
    dependencies come first. The result holds everything reachable from the
    root and nothing else. Every error names a real defect. A store whose
    references are defined and acyclic (ranked) always resolves.
- `sequence.dfy` (module `TemplateSequence`): `templateToSequence`.
  - The header pattern `(alert|macro|notification|lookup) ([a-z0-9\._]+)(\s*)?\{`
    is matched by a hand-written matcher.
  - The matcher is proved sound and complete against a declarative statement
    of the pattern.
  - The helper's loop is a method proved against the function `Sequence`.
- `assembler.dfy` (module `Assembler`): assembling an alert's template from
  its resolution.
  - The round trip is proved: when every block is well formed, the helper
    applied to an alert's assembled template returns the alert's resolution,
    names joined by commas.
- `fixtures.dfy` (module `DependenciesTest`): the two configurations of the
  test file as entity stores, and the tests themselves.
  - It proves the exact orderings the tests expect.
  - `TestConfDependencies` and `TestKyleDependencies` are methods whose
    contract is that they pass.

## Model

| member | source | states |
|---|---|---|
| Config.FieldRefs | cmd/bosun/conf/dependencies_test.go:12 | the keys one field names: a `depends` field its alerts, `macro =` its macro, a notification field its notification; every other line nothing (a table; the `*RefsExtracted` lemmas apply it to the fixtures' fields) |
| Config.ExtractRefs | cmd/bosun/conf/dependencies_test.go:11-26 | a block's references, its fields' references in declaration order (fixed by ExtractRefsAppend and ExtractRefsMember) |
| Config.AlertKeys | cmd/bosun/conf/dependencies_test.go:12 | a `depends` field names one alert key per listed alert, in the order listed |
| Config.ExtractRefsAppend | cmd/bosun/conf/dependencies_test.go:23-26 | a block's references follow its field order: the references of two runs of fields are those of the first run, then those of the second |
| Config.ExtractRefsMember | cmd/bosun/conf/dependencies_test.go:11-13 | a key is a reference of a block exactly when one of the block's fields names it; other lines contribute nothing |
| Resolver.Visit | cmd/bosun/conf/dependencies_test.go:34-42 | the depth-first walk from one entity: skip it when emitted, fail on a cycle or an undefined key, otherwise visit its references and emit it last (fixed by VisitOk, VisitWithin and VisitErrors) |
| Resolver.VisitRefs | cmd/bosun/conf/dependencies_test.go:34-42 | visits a block's references in declaration order, threading what was emitted (fixed by VisitRefsOk, VisitRefsWithin and VisitRefsErrors) |
| Resolver.Resolve | cmd/bosun/conf/dependencies_test.go:38-42 | a successful resolution is non-empty, ends with the requested alert, and holds only entities the store defines |
| Resolver.VisitOk | cmd/bosun/conf/dependencies_test.go:11-26 | a successful visit extends the emitted list, keeps it free of duplicates and dependencies-first, contains the entity, and adds no entity still in progress |
| Resolver.VisitRefsOk | cmd/bosun/conf/dependencies_test.go:11-26 | visiting a block's references in order keeps those invariants and emits every one of them |
| Resolver.ResolveOrdered | cmd/bosun/conf/dependencies_test.go:188 | a resolution names each entity once, and every entity appears after all the entities it references |
| Resolver.ResolveClosed | cmd/bosun/conf/dependencies_test.go:38 | a resolution contains its root and every reference of every entity in it, so everything reachable from the root |
| Resolver.VisitWithin | cmd/bosun/conf/dependencies_test.go:146-176 | a visit inside a reference-closed set emits, and reports errors about, only keys of that set |
| Resolver.VisitRefsWithin | cmd/bosun/conf/dependencies_test.go:146-176 | the same for visiting a block's references |
| Resolver.ResolveWithin | cmd/bosun/conf/dependencies_test.go:146-176 | everything a resolution emits or blames lies in every reference-closed set that contains the root, so unreachable alerts never appear |
| Resolver.VisitErrors | cmd/bosun/conf/dependencies_test.go:34-37 | a failed visit reports a real cycle of references or a reference to an undefined key |
| Resolver.VisitRefsErrors | cmd/bosun/conf/dependencies_test.go:34-37 | the same for visiting a block's references |
| Resolver.ResolveErrors | cmd/bosun/conf/dependencies_test.go:34-37 | a failed resolution names a cycle of references, an entity that refers to an undefined key, or an undefined root |
| Resolver.RefPathDescends | cmd/bosun/conf/dependencies_test.go:38 | in a dependencies-first list, a reference path from a listed entity ends at an entity listed earlier |
| Resolver.ResolvedAcyclic | cmd/bosun/conf/dependencies_test.go:38 | no reference path leads from an entity of a successful resolution back to itself |
| Resolver.RankedPathDescends | cmd/bosun/conf/dependencies_test.go:34-37 | along a reference path through entities ranked within a set, the rank strictly decreases |
| Resolver.ResolveSucceedsWithin | cmd/bosun/conf/dependencies_test.go:34-37 | when a reference-closed set holding the root is defined and ranked, the root resolves without error, whatever broken entities lie outside the set |
| Resolver.ResolveSucceeds | cmd/bosun/conf/dependencies_test.go:34-37 | in a store whose references are all defined and ranked, every defined alert resolves without error |
| Resolver.CycleReported | cmd/bosun/conf/dependencies_test.go:34-37 | when a depends on b and b on a, resolving a fails with the cycle a, b, a |
| Resolver.UndefinedReported | cmd/bosun/conf/dependencies_test.go:34-37 | when c depends on an undefined x, resolving c fails, blaming c for x |
| TemplateSequence.HeaderAt | cmd/bosun/conf/dependencies_test.go:54 | the header pattern stated declaratively: a text starts with one of the four keywords, one space, a non-empty `[a-z0-9._]` name, optional whitespace and `{` (the meaning MatchAtSound and MatchAtComplete prove the matcher equal to) |
| TemplateSequence.MatchAt | cmd/bosun/conf/dependencies_test.go:54 | the match of the header pattern at the start of a text takes at least one character and stays inside the text; it is sound and complete against the pattern (MatchAtSound, MatchAtComplete) |
| TemplateSequence.FindAll | cmd/bosun/conf/dependencies_test.go:55 | the leftmost non-overlapping matches, at most one per character; empty exactly when nothing matches anywhere (FindAllEmpty) |
| TemplateSequence.Join | cmd/bosun/conf/dependencies_test.go:60 | the names separated by commas (fixed by JoinEmpty and JoinSnoc) |
| TemplateSequence.Sequence | cmd/bosun/conf/dependencies_test.go:53-61 | the helper's result: the name of every match, in order, joined by commas (TemplateToSequence computes it; SequenceEmpty and AssembledSequence fix it) |
| TemplateSequence.KeywordAt | cmd/bosun/conf/dependencies_test.go:54 | reports a kind exactly when the text starts with that kind's keyword, and none when it starts with no keyword |
| TemplateSequence.NameRun | cmd/bosun/conf/dependencies_test.go:54 | the length of the longest prefix of `[a-z0-9._]` characters |
| TemplateSequence.SpaceRun | cmd/bosun/conf/dependencies_test.go:54 | the length of the longest prefix of `\s` characters |
| TemplateSequence.TemplateToSequence | cmd/bosun/conf/dependencies_test.go:53-61 | the loop collects the name of every match in order, and the result is those names joined by commas |
| TemplateSequence.HeaderPieces | cmd/bosun/conf/dependencies_test.go:54 | a header is its keyword, one space, the name, the gap and `{` |
| TemplateSequence.HeaderFromPieces | cmd/bosun/conf/dependencies_test.go:54 | a keyword followed by those pieces is a header |
| TemplateSequence.KeywordUnique | cmd/bosun/conf/dependencies_test.go:54 | at most one keyword starts a text |
| TemplateSequence.MatchFromSound | cmd/bosun/conf/dependencies_test.go:54 | what the matcher reports after a keyword has the pieces of the pattern |
| TemplateSequence.MatchAtSound | cmd/bosun/conf/dependencies_test.go:54 | every match the matcher reports is a header of the pattern |
| TemplateSequence.NameRunIs | cmd/bosun/conf/dependencies_test.go:54 | a run of name characters that stops at a non-name character is the longest one |
| TemplateSequence.SpaceRunIs | cmd/bosun/conf/dependencies_test.go:54 | a run of whitespace that stops at a non-space is the longest one |
| TemplateSequence.PiecesNameRun | cmd/bosun/conf/dependencies_test.go:54 | the name of a header is the longest run of name characters after the space |
| TemplateSequence.PiecesSpaceRun | cmd/bosun/conf/dependencies_test.go:54 | the gap of a header is the longest run of whitespace after the name |
| TemplateSequence.MatchFromRuns | cmd/bosun/conf/dependencies_test.go:54 | after the space, the matcher continues with the two runs it measures |
| TemplateSequence.MatchRunsPieces | cmd/bosun/conf/dependencies_test.go:54 | with a header's runs, the matcher reports exactly that header |
| TemplateSequence.MatchFromComplete | cmd/bosun/conf/dependencies_test.go:54 | the pieces of a header after its keyword are exactly what the matcher reports |
| TemplateSequence.MatchAtComplete | cmd/bosun/conf/dependencies_test.go:54 | a header at the start of a text is exactly the match the matcher reports there |
| TemplateSequence.HeaderExtend | cmd/bosun/conf/dependencies_test.go:54 | a header at the start of a text remains one whatever follows the text |
| TemplateSequence.HeaderShrink | cmd/bosun/conf/dependencies_test.go:54 | a header that fits inside a prefix is a header of that prefix |
| TemplateSequence.SkipNoMatch | cmd/bosun/conf/dependencies_test.go:55 | positions where nothing matches add no matches |
| TemplateSequence.FindAllNames | cmd/bosun/conf/dependencies_test.go:54-59 | every reported name is non-empty and drawn from `[a-z0-9._]`, so it holds no comma |
| TemplateSequence.FindAllEmpty | cmd/bosun/conf/dependencies_test.go:55 | no match is found exactly when the pattern matches at no position |
| TemplateSequence.JoinEmpty | cmd/bosun/conf/dependencies_test.go:60 | joining non-empty names gives the empty string exactly when there are no names |
| TemplateSequence.JoinSnoc | cmd/bosun/conf/dependencies_test.go:60 | joining one more name appends the separator and that name |
| TemplateSequence.SequenceEmpty | cmd/bosun/conf/dependencies_test.go:53-60 | the helper returns the empty string exactly when no header occurs anywhere in the template |
| TemplateSequence.HeaderMarks | cmd/bosun/conf/dependencies_test.go:54 | a header has a space after its keyword, a name character after the space, ends with `{`, and holds no other `{` |
| TemplateSequence.LayoutBrace | cmd/bosun/conf/dependencies_test.go:90 | in a `template <name> {` block, the only `{` a header could end at is the block's own |
| TemplateSequence.LayoutSpace | cmd/bosun/conf/dependencies_test.go:90 | before the gap, the only space is the one after `template` |
| TemplateSequence.LayoutKeyword | cmd/bosun/conf/dependencies_test.go:90 | no pattern keyword ends at the space after `template` |
| TemplateSequence.TemplateNoHeader | cmd/bosun/conf/dependencies_test.go:90 | no header starts anywhere in such a block |
| TemplateSequence.HeaderBraceLast | cmd/bosun/conf/dependencies_test.go:54 | the `{` that ends a header is its first |
| TemplateSequence.MatchEndsByBrace | cmd/bosun/conf/dependencies_test.go:54 | a match ends at or before the first `{` of the text |
| TemplateSequence.NoMatchBeforeOpenBrace | cmd/bosun/conf/dependencies_test.go:54 | a text that ends with `{` and holds no header starts no match, whatever follows it |
| TemplateSequence.TemplateHeaderNoMatch | cmd/bosun/conf/dependencies_test.go:77-116 | no match starts inside a `template <name> {` header, whatever follows it |
| TemplateSequence.TemplateBlockQuiet | cmd/bosun/conf/dependencies_test.go:77-116 | a `template` header adds no name and leaves the matches of what follows unchanged, whatever that holds (`{{...}}` included) |
| Assembler.Assemble | cmd/bosun/conf/dependencies_test.go:46 | the texts of the resolved blocks, in resolution order, each followed by a blank line (read back by AssembleFindAll) |
| Assembler.AssembleAlert | cmd/bosun/conf/dependencies_test.go:34-46 | an alert's assembled template, or the error that stopped its resolution (fixed by AssembledSequence and AllAssemble) |
| Assembler.AssembleAll | cmd/bosun/conf/dependencies_test.go:46 | holds one entry per alert of the store, and each entry is that alert's assembled template, or the error that stopped its resolution |
| Assembler.HeaderHasNoCloseBrace | cmd/bosun/conf/dependencies_test.go:54 | no header contains `}` |
| Assembler.NoMatchAtNewline | cmd/bosun/conf/dependencies_test.go:54 | a text that starts with a newline starts no header |
| Assembler.HeaderBeforeCloseBrace | cmd/bosun/conf/dependencies_test.go:54 | a header that starts before a `}` ends before it |
| Assembler.MatchBeforeCloseBrace | cmd/bosun/conf/dependencies_test.go:54 | a match that starts before a `}` is the same whatever follows the `}` |
| Assembler.NoMatchBeforeCloseBrace | cmd/bosun/conf/dependencies_test.go:54 | a text that ends with `}` and starts no match starts none whatever follows it |
| Assembler.SuffixNoMatch | cmd/bosun/conf/dependencies_test.go:54 | the same for every suffix of such a text |
| Assembler.NoMatchInBlockTail | cmd/bosun/conf/dependencies_test.go:54 | past its header, a well-formed block starts no match, whatever follows it |
| Assembler.HeaderFirst | cmd/bosun/conf/dependencies_test.go:54 | a block's own header is the match at the start of the block and anything after it |
| Assembler.SeparatorQuiet | cmd/bosun/conf/dependencies_test.go:54 | the separator after a block starts no match |
| Assembler.BlockTailQuiet | cmd/bosun/conf/dependencies_test.go:55 | nothing matches from the end of a block's header to the start of the next block |
| Assembler.FindAllAt | cmd/bosun/conf/dependencies_test.go:55 | a text that starts with a match yields that match, then the matches after it |
| Assembler.FindAllHead | cmd/bosun/conf/dependencies_test.go:55 | the same when more text follows the match |
| Assembler.BlockSkip | cmd/bosun/conf/dependencies_test.go:55 | after a block's header, the matches are those of the text after the block's separator |
| Assembler.BlockThenRest | cmd/bosun/conf/dependencies_test.go:55 | the matches of a well-formed block followed by more text are the block's header, then the matches of that text |
| Assembler.MatchKeysCons | cmd/bosun/conf/dependencies_test.go:58 | the keys of a first match and the matches after it |
| Assembler.AssembleFindAll | cmd/bosun/conf/dependencies_test.go:53-59 | reading the headers back out of an assembled template gives the assembled keys, in order |
| Assembler.AssembledSequence | cmd/bosun/conf/dependencies_test.go:45-50 | for an alert that resolves to well-formed blocks, the helper applied to its assembled template returns its resolution's names joined by commas |
| Assembler.BlockWellFormed | cmd/bosun/conf/dependencies_test.go:72-75 | a block written as its header, then a tail without `{` that ends with `}`, is well formed |
| DependenciesTest.StoredSound | cmd/bosun/conf/dependencies_test.go:9-27 | a fixture store's references are defined and ranked when its reference table is |
| DependenciesTest.StoredBlocks | cmd/bosun/conf/dependencies_test.go:9-27 | a fixture store's blocks are well formed when their names are |
| DependenciesTest.ReadBack | cmd/bosun/conf/dependencies_test.go:45-50 | an alert that resolves to well-formed blocks reads back from its batch entry as its resolution's names joined by commas |
| DependenciesTest.ConfRefs | cmd/bosun/conf/dependencies_test.go:9-27 | the reference graph of `dependencyTestConfig`, each block's references in declaration order; ConfRefsExtracted ties it to the blocks' fields |
| DependenciesTest.ConfStore | cmd/bosun/conf/dependencies_test.go:9-27 | `dependencyTestConfig` as a store: that graph, with block texts cut to header and `}` (see Left out) |
| DependenciesTest.ConfRefsExtracted | cmd/bosun/conf/dependencies_test.go:11-26 | each block of the first configuration references what its fields name, in declaration order |
| DependenciesTest.ConfStoreSound | cmd/bosun/conf/dependencies_test.go:9-27 | every reference of the first configuration is defined, and none lies on a cycle |
| DependenciesTest.ConfChainVisit | cmd/bosun/conf/dependencies_test.go:11-22 | reached through os.cpu's macro, scollector.down emits ping.host first, then itself |
| DependenciesTest.ResolveOsCpu | cmd/bosun/conf/dependencies_test.go:38-39 | os.cpu resolves to ping.host, scollector.down, host_based, os.cpu |
| DependenciesTest.ResolvePingHost | cmd/bosun/conf/dependencies_test.go:41-42 | ping.host resolves to itself alone, although other alerts of the store depend on it |
| DependenciesTest.OsCpuSequence | cmd/bosun/conf/dependencies_test.go:38-39 | the helper reads `ping.host,scollector.down,host_based,os.cpu` from os.cpu's assembled template |
| DependenciesTest.PingHostSequence | cmd/bosun/conf/dependencies_test.go:41-42 | the helper reads `ping.host` from ping.host's assembled template |
| DependenciesTest.KyleRefs | cmd/bosun/conf/dependencies_test.go:63-177 | the reference graph of `kyleConfig`, each block's references in declaration order; the three `Kyle*RefsExtracted` lemmas tie it to the blocks' fields |
| DependenciesTest.KyleStore | cmd/bosun/conf/dependencies_test.go:63-177 | `kyleConfig` as a store: that graph, with block texts cut to header and `}` (see Left out) |
| DependenciesTest.KyleRefsExtracted | cmd/bosun/conf/dependencies_test.go:118-121 | the macro references scollector.down only, because its second `depends` is commented out; the notification references nothing |
| DependenciesTest.KyleChainRefsExtracted | cmd/bosun/conf/dependencies_test.go:123-144 | ping.host references default, and scollector.down references ping.host, then default |
| DependenciesTest.KyleAlertRefsExtracted | cmd/bosun/conf/dependencies_test.go:146-176 | each of the other alerts references its macro before its notification when it lists them so |
| DependenciesTest.KyleStoreSound | cmd/bosun/conf/dependencies_test.go:63-177 | every reference of the second configuration is defined, and none lies on a cycle |
| DependenciesTest.PingHostVisit | cmd/bosun/conf/dependencies_test.go:123-130 | reached through the macro chain, ping.host emits default first, then itself |
| DependenciesTest.ScollectorDownVisit | cmd/bosun/conf/dependencies_test.go:132-144 | scollector.down names default again after ping.host, and default is not emitted a second time |
| DependenciesTest.ResolveAlwaysGood | cmd/bosun/conf/dependencies_test.go:188-189 | always.good resolves to default, ping.host, scollector.down, host_based, always.good |
| DependenciesTest.AlwaysGoodIsolated | cmd/bosun/conf/dependencies_test.go:146-176 | os.cpu, os.cpu.no_depedency and os.mem are absent from always.good's resolution |
| DependenciesTest.KyleSequences | cmd/bosun/conf/dependencies_test.go:188-189 | the helper reads `default,ping.host,scollector.down,host_based,always.good` from always.good's assembled template |
| DependenciesTest.GenericTemplateQuiet | cmd/bosun/conf/dependencies_test.go:90 | the helper reads no name from the header of the `template generic` block |
| DependenciesTest.AssertTemplateSequenceEqual | cmd/bosun/conf/dependencies_test.go:45-50 | passes exactly when the helper, applied to the alert's template (empty when the alert is missing), returns the expected string |
| DependenciesTest.AlertTemplateStrings | cmd/bosun/conf/dependencies_test.go:34-37 | fails exactly when some alert fails to assemble; otherwise maps every alert name to its assembled template |
| DependenciesTest.AllAssemble | cmd/bosun/conf/dependencies_test.go:34-37 | in a store whose references are defined and ranked, every alert assembles |
| DependenciesTest.TestConfDependencies | cmd/bosun/conf/dependencies_test.go:29-43 | the first test passes |
| DependenciesTest.TestKyleDependencies | cmd/bosun/conf/dependencies_test.go:179-191 | the second test passes |

## Left out

- The configuration parser `New` and the real `AlertTemplateStrings` are not part of this model. The model takes an entity store that is already built.
- The resolver's implementation is not part of this model either. Its behaviour is the one the fixtures fix: depth-first, references in declaration order, postorder, emitted entities skipped. The two error results, cycle and undefined reference, are the model's own contract. The tests exercise neither.
- The string between assembled blocks is not shown. The model writes a blank line (`"\n\n"`) after every block.
- Fixture block texts are kept to their header line and closing brace. Their body lines (queries, `warn = ...`, `template = ...`) appear only as opaque fields. The round-trip lemma (AssembledSequence) needs only that no header starts in a block after its own header. BlockWellFormed establishes that for tails without `{`, and the fixture stores use such tails. The fixtures' real bodies hold `{` inside queries, and no such text is checked character by character.
- Reference extraction reads fields that are already parsed. Which lines count as fields, and that `#` starts a comment, belong to the parser, which is left out.
- The expression language and the queries are left out. They are opaque text and play no part in ordering.
- Global settings (`tsdbHost`, `smtpHost`, ...) and `template` blocks as entities are left out. The helper's treatment of a `template` header is modelled (TemplateBlockQuiet), for any body that follows it.
- Go's `regexp` engine is replaced by a hand-written matcher. It is proved equal to the pattern's declarative meaning.
- The `testing.T` harness, `t.Fatal` and message formatting are left out. A test is a method that returns whether it passed.
- DependenciesTest.AlertTemplateStrings: the real method's error behaviour is not shown. The model fails when any alert fails to resolve.
- Evaluating alerts in parallel is left out. Each alert is resolved on its own.
