/** The two configurations of the dependency tests as entity stores, the
    orderings the tests expect of them, and the tests themselves.

    Block texts keep only each block's header and closing brace. Each
    store's references come from a table that the `*RefsExtracted` lemmas
    tie to the blocks' fields.

    Lemmas marked "Solver hint" only restate a literal (a table entry, a
    ranking, a string concatenation, a character class) so that the proofs
    using them stay small; they are not properties of the configuration. */
module DependenciesTest {
  import opened Config
  import opened Resolver
  import opened TemplateSequence
  import opened Assembler

  function A(name: string): Key { Key(Alert, name) }
  function M(name: string): Key { Key(Macro, name) }
  function N(name: string): Key { Key(Notification, name) }

  // ---------------------------------------------------------------------
  // One step of a resolution each: these let a concrete resolution be
  // written down as the trace of its visits.

  lemma VisitStep(st: Store, k: Key, from: Option<Key>, path: seq<Key>, next: seq<Key>,
                  done: seq<Key>, out: seq<Key>, res: seq<Key>)
    requires k !in done && k !in path && k in st
    requires next == path + [k] && res == out + [k]
    requires VisitRefs(st, k, st[k].refs, next, done) == Ok(out)
    ensures Visit(st, k, from, path, done) == Ok(res)
  {
  }

  lemma VisitSkip(st: Store, k: Key, from: Option<Key>, path: seq<Key>, done: seq<Key>)
    requires k in done
    ensures Visit(st, k, from, path, done) == Ok(done)
  {
  }

  lemma RefsCons(st: Store, owner: Key, refs: seq<Key>, first: Key, rest: seq<Key>,
                 path: seq<Key>, done: seq<Key>, mid: seq<Key>, out: seq<Key>)
    requires refs == [first] + rest
    requires Visit(st, first, Some(owner), path, done) == Ok(mid)
    requires VisitRefs(st, owner, rest, path, mid) == Ok(out)
    ensures VisitRefs(st, owner, refs, path, done) == Ok(out)
  {
    assert refs[0] == first && refs[1..] == rest;
  }

  /** One more name on a join whose value is known. */
  lemma JoinStep(ns: seq<string>, n: string, sep: string, prev: string, next: string)
    requires ns != [] && Join(ns, sep) == prev && prev + sep + n == next
    ensures Join(ns + [n], sep) == next
  {
    JoinSnoc(ns, n, sep);
  }

  lemma RefsNil(st: Store, owner: Key, path: seq<Key>, done: seq<Key>)
    ensures VisitRefs(st, owner, [], path, done) == Ok(done)
  {
  }

  /** A store whose blocks are written as their header, with one gap
      throughout, and a closing brace; refs gives each block's references. */
  function Stored(gap: string, refs: map<Key, seq<Key>>): (st: Store)
    ensures st.Keys == refs.Keys
    ensures forall k :: k in st ==> st[k] == Entity(BlockText(k, gap, "\n}"), refs[k])
  {
    map k | k in refs :: Entity(BlockText(k, gap, "\n}"), refs[k])
  }

  /** Every reference of such a store is defined and descends in rank when
      this holds of refs. */
  lemma StoredSound(gap: string, refs: map<Key, seq<Key>>, rank: map<Key, nat>)
    requires forall k :: k in refs ==>
      k in rank && forall r :: r in refs[k] ==> r in refs && r in rank && rank[r] < rank[k]
    ensures RefsDefined(Stored(gap, refs)) && Ranked(Stored(gap, refs), rank)
  {
  }

  /** Such blocks are well formed when their names are. */
  lemma StoredBlocks(gap: string, refs: map<Key, seq<Key>>, keys: seq<Key>)
    requires AllSpaces(gap)
    requires forall k :: k in keys ==> k in refs && |k.name| > 0 && AllNameChars(k.name)
    ensures WellFormedBlocks(Stored(gap, refs), keys)
  {
    forall k | k in keys ensures k in Stored(gap, refs) && WellFormedBlock(k, Stored(gap, refs)[k].text) {
      BlockWellFormed(k, gap, "\n}");
    }
  }

  /** An alert that resolves to well-formed blocks reads back, from its
      entry in the batch, as its resolution's names joined by commas. */
  lemma ReadBack(st: Store, root: Key, out: seq<Key>, names: seq<string>, joined: string)
    requires root.kind == Alert
    requires Resolve(st, root) == Ok(out) && WellFormedBlocks(st, out)
    requires KeyNames(out) == names && Join(names, ",") == joined
    ensures root.name in AssembleAll(st) && AssembleAll(st)[root.name].Ok?
    ensures Sequence(AssembleAll(st)[root.name].value) == joined
  {
    AssembledSequence(st, root);
  }

  // ---------------------------------------------------------------------
  // The first configuration (dependencies_test.go:9-27).

  /** The reference graph of `dependencyTestConfig`: each block's references,
      in declaration order. */
  function ConfRefs(): map<Key, seq<Key>>
  {
    map[
      M("host_based") := [A("scollector.down")],
      A("ping.host") := [],
      A("scollector.down") := [A("ping.host")],
      A("os.cpu") := [M("host_based")]
    ]
  }

  /** The first configuration as a store. */
  function ConfStore(): Store
  {
    Stored("", ConfRefs())
  }

  /** The references of each block of the first configuration are those
      its fields name, in the order they are declared. */
  lemma ConfRefsExtracted()
    ensures ConfRefs()[M("host_based")]
         == ExtractRefs([Depends(["scollector.down"])])
    ensures ConfRefs()[A("ping.host")]
         == ExtractRefs([Opaque("$q = max(rename(q(...)))"), Opaque("warn = $q")])
    ensures ConfRefs()[A("scollector.down")]
         == ExtractRefs([Depends(["ping.host"]), Opaque("$a = avg(q(...)) < -100"), Opaque("warn = $a")])
    ensures ConfRefs()[A("os.cpu")]
         == ExtractRefs([UseMacro("host_based"), Opaque("warn = avg(q(...)) > 50")])
  {
  }

  function ConfRanks(): map<Key, nat>
  {
    map[A("ping.host") := 0, A("scollector.down") := 1, M("host_based") := 2, A("os.cpu") := 3]
  }

  /** Every reference of the first configuration is defined, and none lies on a cycle. */
  lemma ConfStoreSound()
    ensures RefsDefined(ConfStore()) && Ranked(ConfStore(), ConfRanks())
  {
    ConfStoreRanked();
    StoredSound("", ConfRefs(), ConfRanks());
  }

  // Solver hint.
  lemma ConfStoreRanked()
    ensures forall k :: k in ConfRefs() ==>
      k in ConfRanks() && forall r :: r in ConfRefs()[k] ==> r in ConfRefs() && r in ConfRanks() && ConfRanks()[r] < ConfRanks()[k]
  {
  }

  /** Reached through os.cpu's macro, scollector.down emits ping.host first. */
  lemma ConfChainVisit()
    ensures var cpu, hb := A("os.cpu"), M("host_based");
      Visit(ConfStore(), A("scollector.down"), Some(hb), [cpu, hb], []) == Ok([A("ping.host"), A("scollector.down")])
  {
    var st := ConfStore();
    var cpu, hb, sd, ph := A("os.cpu"), M("host_based"), A("scollector.down"), A("ping.host");
    assert st[sd].refs == [ph] && st[ph].refs == [];
    RefsNil(st, ph, [cpu, hb, sd, ph], []);
    VisitStep(st, ph, Some(sd), [cpu, hb, sd], [cpu, hb, sd, ph], [], [], [ph]);
    RefsNil(st, sd, [cpu, hb, sd], [ph]);
    RefsCons(st, sd, [ph], ph, [], [cpu, hb, sd], [], [ph], [ph]);
    VisitStep(st, sd, Some(hb), [cpu, hb], [cpu, hb, sd], [], [ph], [ph, sd]);
  }

  /** os.cpu reaches ping.host through its macro and the macro's dependency. */
  lemma ResolveOsCpu()
    ensures Resolve(ConfStore(), A("os.cpu"))
         == Ok([A("ping.host"), A("scollector.down"), M("host_based"), A("os.cpu")])
  {
    var st := ConfStore();
    var cpu, hb, sd, ph := A("os.cpu"), M("host_based"), A("scollector.down"), A("ping.host");
    assert st[cpu].refs == [hb] && st[hb].refs == [sd];
    ConfChainVisit();
    RefsNil(st, hb, [cpu, hb], [ph, sd]);
    RefsCons(st, hb, [sd], sd, [], [cpu, hb], [], [ph, sd], [ph, sd]);
    VisitStep(st, hb, Some(cpu), [cpu], [cpu, hb], [], [ph, sd], [ph, sd, hb]);
    RefsNil(st, cpu, [cpu], [ph, sd, hb]);
    RefsCons(st, cpu, [hb], hb, [], [cpu], [], [ph, sd, hb], [ph, sd, hb]);
    VisitStep(st, cpu, None, [], [cpu], [], [ph, sd, hb], [ph, sd, hb, cpu]);
  }

  /** An alert without references resolves to itself alone, although the
      store holds alerts that depend on it. */
  lemma ResolvePingHost()
    ensures Resolve(ConfStore(), A("ping.host")) == Ok([A("ping.host")])
  {
    var st := ConfStore();
    var ph := A("ping.host");
    assert st[ph].refs == [];
    RefsNil(st, ph, [ph], []);
    VisitStep(st, ph, None, [], [ph], [], [], [ph]);
  }

  lemma OsCpuNames()
    ensures KeyNames([A("ping.host"), A("scollector.down"), M("host_based"), A("os.cpu")])
         == ["ping.host", "scollector.down", "host_based", "os.cpu"]
  {
  }

  // The expected joins, one name at a time.

  lemma ScollectorDownJoined()
    ensures Join(["ping.host", "scollector.down"], ",") == "ping.host,scollector.down"
  {
    JoinStep(["ping.host"], "scollector.down", ",", "ping.host", "ping.host,scollector.down");
  }

  lemma HostBasedJoined()
    ensures Join(["ping.host", "scollector.down", "host_based"], ",") == "ping.host,scollector.down,host_based"
  {
    ScollectorDownJoined();
    JoinStep(["ping.host", "scollector.down"], "host_based", ",",
      "ping.host,scollector.down", "ping.host,scollector.down,host_based");
  }

  lemma OsCpuJoined()
    ensures Join(["ping.host", "scollector.down", "host_based", "os.cpu"], ",")
         == "ping.host,scollector.down,host_based,os.cpu"
  {
    HostBasedJoined();
    JoinStep(["ping.host", "scollector.down", "host_based"], "os.cpu", ",",
      "ping.host,scollector.down,host_based", "ping.host,scollector.down,host_based,os.cpu");
  }

  // Solver hint.
  lemma ConfNameChars()
    ensures AllNameChars("ping.host") && AllNameChars("scollector.down")
    ensures AllNameChars("host_based") && AllNameChars("os.cpu") && AllSpaces("")
  {
  }

  lemma OsCpuBlocks()
    ensures WellFormedBlocks(ConfStore(), [A("ping.host"), A("scollector.down"), M("host_based"), A("os.cpu")])
  {
    ConfNameChars();
    StoredBlocks("", ConfRefs(), [A("ping.host"), A("scollector.down"), M("host_based"), A("os.cpu")]);
  }

  /** What the first test reads from the assembled template of os.cpu. */
  lemma OsCpuSequence()
    ensures var all := AssembleAll(ConfStore());
      && "os.cpu" in all && all["os.cpu"].Ok?
      && Sequence(all["os.cpu"].value) == "ping.host,scollector.down,host_based,os.cpu"
  {
    var out := [A("ping.host"), A("scollector.down"), M("host_based"), A("os.cpu")];
    ResolveOsCpu();
    OsCpuBlocks();
    OsCpuNames();
    OsCpuJoined();
    ReadBack(ConfStore(), A("os.cpu"), out, ["ping.host", "scollector.down", "host_based", "os.cpu"],
      "ping.host,scollector.down,host_based,os.cpu");
  }

  lemma PingHostNames()
    ensures KeyNames([A("ping.host")]) == ["ping.host"] && Join(["ping.host"], ",") == "ping.host"
  {
  }

  /** What the first test reads from the assembled template of ping.host. */
  lemma PingHostSequence()
    ensures var all := AssembleAll(ConfStore());
      && "ping.host" in all && all["ping.host"].Ok? && Sequence(all["ping.host"].value) == "ping.host"
  {
    ResolvePingHost();
    ConfNameChars();
    StoredBlocks("", ConfRefs(), [A("ping.host")]);
    PingHostNames();
    ReadBack(ConfStore(), A("ping.host"), [A("ping.host")], ["ping.host"], "ping.host");
  }

  // ---------------------------------------------------------------------
  // The second configuration (dependencies_test.go:63-177). Its two
  // `template` blocks are not entities; TemplateBlockQuiet shows that the
  // sequence helper would skip them.

  /** The reference graph of `kyleConfig`: each block's references, in
      declaration order. */
  function KyleRefs(): map<Key, seq<Key>>
  {
    map[
      N("default") := [],
      M("host_based") := [A("scollector.down")],
      A("ping.host") := [N("default")],
      A("scollector.down") := [A("ping.host"), N("default")],
      A("os.cpu") := [M("host_based"), N("default")],
      A("os.cpu.no_depedency") := [N("default")],
      A("always.good") := [M("host_based"), N("default")],
      A("os.mem") := [M("host_based"), N("default")]
    ]
  }

  /** The second configuration as a store. */
  function KyleStore(): Store
  {
    Stored(" ", KyleRefs())
  }

  /** The references of the notification and the macro of the second
      configuration are those their fields name, in the order they are
      declared; a commented-out `depends` contributes nothing. */
  lemma KyleRefsExtracted()
    ensures KyleRefs()[N("default")]
         == ExtractRefs([Opaque("email = kyle@stackoverflow.com"), Opaque("print = true")])
    ensures KyleRefs()[M("host_based")]
         == ExtractRefs([Depends(["scollector.down"]), Opaque("#depends = alert(\"ping.host\", \"warn\")")])
  {
  }

  /** The same for the two alerts the macro reaches. */
  lemma KyleChainRefsExtracted()
    ensures KyleRefs()[A("ping.host")]
         == ExtractRefs([Opaque("template = generic"), Opaque("$q = max(rename(q(...)))"), Opaque("warn = $q"),
                         Notify("warn", "default")])
    ensures KyleRefs()[A("scollector.down")]
         == ExtractRefs([Opaque("template = generic"), Depends(["ping.host"]), Opaque("warn = $a || $b || $c"),
                         Notify("warn", "default")])
  {
  }

  /** The same for the second configuration's other alerts: a macro comes
      before a notification when the block lists them so. */
  lemma KyleAlertRefsExtracted()
    ensures KyleRefs()[A("os.cpu")]
         == ExtractRefs([UseMacro("host_based"), Opaque("template = generic"), Opaque("warn = $q < 99"),
                         Notify("warn", "default")])
    ensures KyleRefs()[A("os.cpu.no_depedency")]
         == ExtractRefs([Opaque("template = generic"), Opaque("warn = $q < 99"), Notify("warn", "default")])
    ensures KyleRefs()[A("always.good")]
         == ExtractRefs([UseMacro("host_based"), Opaque("template = generic"), Opaque("warn = $q > 200"),
                         Notify("warn", "default")])
    ensures KyleRefs()[A("os.mem")]
         == ExtractRefs([UseMacro("host_based"), Opaque("template = generic"), Opaque("crit = $q < 99"),
                         Notify("crit", "default")])
  {
  }

  function KyleRanks(): map<Key, nat>
  {
    map[N("default") := 0, A("ping.host") := 1, A("scollector.down") := 2, M("host_based") := 3,
        A("os.cpu") := 4, A("os.cpu.no_depedency") := 1, A("always.good") := 4, A("os.mem") := 4]
  }

  /** Every reference of the second configuration is defined, and none lies on a cycle. */
  lemma KyleStoreSound()
    ensures RefsDefined(KyleStore()) && Ranked(KyleStore(), KyleRanks())
  {
    KyleStoreRanked();
    StoredSound(" ", KyleRefs(), KyleRanks());
  }

  // Solver hint.
  lemma KyleStoreRanked()
    ensures forall k :: k in KyleRefs() ==>
      k in KyleRanks() && forall r :: r in KyleRefs()[k] ==> r in KyleRefs() && r in KyleRanks() && KyleRanks()[r] < KyleRanks()[k]
  {
  }

  // Solver hint.
  lemma KyleChainRefs()
    ensures KyleRefs()[N("default")] == []
    ensures KyleRefs()[M("host_based")] == [A("scollector.down")]
    ensures KyleRefs()[A("ping.host")] == [N("default")]
    ensures KyleRefs()[A("scollector.down")] == [A("ping.host"), N("default")]
  {
  }

  // Solver hint.
  lemma KyleAlertRefs()
    ensures KyleRefs()[A("os.cpu")] == [M("host_based"), N("default")]
    ensures KyleRefs()[A("os.cpu.no_depedency")] == [N("default")]
    ensures KyleRefs()[A("always.good")] == [M("host_based"), N("default")]
    ensures KyleRefs()[A("os.mem")] == [M("host_based"), N("default")]
  {
  }

  /** Inside the resolution of always.good, by way of its macro:
      ping.host emits `default` first, then itself. */
  lemma PingHostVisit()
    ensures var ag, hb, sd := A("always.good"), M("host_based"), A("scollector.down");
      Visit(KyleStore(), A("ping.host"), Some(sd), [ag, hb, sd], []) == Ok([N("default"), A("ping.host")])
  {
    var st := KyleStore();
    var ag, hb, sd, ph, df := A("always.good"), M("host_based"), A("scollector.down"), A("ping.host"), N("default");
    KyleChainRefs();
    RefsNil(st, df, [ag, hb, sd, ph, df], []);
    VisitStep(st, df, Some(ph), [ag, hb, sd, ph], [ag, hb, sd, ph, df], [], [], [df]);
    RefsNil(st, ph, [ag, hb, sd, ph], [df]);
    RefsCons(st, ph, [df], df, [], [ag, hb, sd, ph], [], [df], [df]);
    VisitStep(st, ph, Some(sd), [ag, hb, sd], [ag, hb, sd, ph], [], [df], [df, ph]);
  }

  /** scollector.down names `default` again, after ping.host: it is skipped. */
  lemma ScollectorDownVisit()
    ensures var ag, hb := A("always.good"), M("host_based");
      Visit(KyleStore(), A("scollector.down"), Some(hb), [ag, hb], [])
        == Ok([N("default"), A("ping.host"), A("scollector.down")])
  {
    var st := KyleStore();
    var ag, hb, sd, ph, df := A("always.good"), M("host_based"), A("scollector.down"), A("ping.host"), N("default");
    KyleChainRefs();
    PingHostVisit();
    VisitSkip(st, df, Some(sd), [ag, hb, sd], [df, ph]);
    RefsNil(st, sd, [ag, hb, sd], [df, ph]);
    RefsCons(st, sd, [df], df, [], [ag, hb, sd], [df, ph], [df, ph], [df, ph]);
    RefsCons(st, sd, [ph, df], ph, [df], [ag, hb, sd], [], [df, ph], [df, ph]);
    VisitStep(st, sd, Some(hb), [ag, hb], [ag, hb, sd], [], [df, ph], [df, ph, sd]);
  }

  /** always.good lists its macro before its notification, yet `default`
      comes first: the macro's chain reaches it first, through ping.host,
      and it is emitted once although three of the visited blocks name it. */
  lemma ResolveAlwaysGood()
    ensures Resolve(KyleStore(), A("always.good"))
         == Ok([N("default"), A("ping.host"), A("scollector.down"), M("host_based"), A("always.good")])
  {
    var st := KyleStore();
    var ag, hb, sd, ph, df := A("always.good"), M("host_based"), A("scollector.down"), A("ping.host"), N("default");
    KyleChainRefs();
    KyleAlertRefs();
    ScollectorDownVisit();
    RefsNil(st, hb, [ag, hb], [df, ph, sd]);
    RefsCons(st, hb, [sd], sd, [], [ag, hb], [], [df, ph, sd], [df, ph, sd]);
    VisitStep(st, hb, Some(ag), [ag], [ag, hb], [], [df, ph, sd], [df, ph, sd, hb]);
    // always.good names default itself: skipped
    VisitSkip(st, df, Some(ag), [ag], [df, ph, sd, hb]);
    RefsNil(st, ag, [ag], [df, ph, sd, hb]);
    RefsCons(st, ag, [df], df, [], [ag], [df, ph, sd, hb], [df, ph, sd, hb], [df, ph, sd, hb]);
    RefsCons(st, ag, [hb, df], hb, [df], [ag], [], [df, ph, sd, hb], [df, ph, sd, hb]);
    VisitStep(st, ag, None, [], [ag], [], [df, ph, sd, hb], [df, ph, sd, hb, ag]);
  }

  /** The alerts always.good cannot reach stay out of its resolution. */
  lemma AlwaysGoodIsolated()
    ensures Resolve(KyleStore(), A("always.good")).Ok?
    ensures var out := Resolve(KyleStore(), A("always.good")).value;
      A("os.cpu") !in out && A("os.cpu.no_depedency") !in out && A("os.mem") !in out
  {
    ResolveAlwaysGood();
  }

  lemma AlwaysGoodNames()
    ensures KeyNames([N("default"), A("ping.host"), A("scollector.down"), M("host_based"), A("always.good")])
         == ["default", "ping.host", "scollector.down", "host_based", "always.good"]
  {
  }

  lemma PingHostJoined()
    ensures Join(["default", "ping.host"], ",") == "default,ping.host"
  {
    JoinStep(["default"], "ping.host", ",", "default", "default,ping.host");
  }

  lemma DependenciesJoined()
    ensures Join(["default", "ping.host", "scollector.down"], ",") == "default,ping.host,scollector.down"
  {
    PingHostJoined();
    JoinStep(["default", "ping.host"], "scollector.down", ",",
      "default,ping.host", "default,ping.host,scollector.down");
  }

  lemma MacroJoined()
    ensures Join(["default", "ping.host", "scollector.down", "host_based"], ",")
         == "default,ping.host,scollector.down,host_based"
  {
    DependenciesJoined();
    JoinStep(["default", "ping.host", "scollector.down"], "host_based", ",",
      "default,ping.host,scollector.down", "default,ping.host,scollector.down,host_based");
  }

  lemma AlwaysGoodJoined()
    ensures Join(["default", "ping.host", "scollector.down", "host_based", "always.good"], ",")
         == "default,ping.host,scollector.down,host_based,always.good"
  {
    MacroJoined();
    JoinStep(["default", "ping.host", "scollector.down", "host_based"], "always.good", ",",
      "default,ping.host,scollector.down,host_based", "default,ping.host,scollector.down,host_based,always.good");
  }

  // Solver hint.
  lemma AlwaysGoodNameChars()
    ensures AllNameChars("default") && AllNameChars("ping.host") && AllNameChars("scollector.down")
    ensures AllNameChars("host_based") && AllNameChars("always.good") && AllSpaces(" ")
  {
  }

  lemma AlwaysGoodBlocks()
    ensures WellFormedBlocks(KyleStore(),
      [N("default"), A("ping.host"), A("scollector.down"), M("host_based"), A("always.good")])
  {
    AlwaysGoodNameChars();
    StoredBlocks(" ", KyleRefs(), [N("default"), A("ping.host"), A("scollector.down"), M("host_based"), A("always.good")]);
  }

  /** What the second test reads from the assembled template of always.good. */
  lemma KyleSequences()
    ensures var all := AssembleAll(KyleStore());
      && "always.good" in all && all["always.good"].Ok?
      && Sequence(all["always.good"].value) == "default,ping.host,scollector.down,host_based,always.good"
  {
    var st := KyleStore();
    var out := [N("default"), A("ping.host"), A("scollector.down"), M("host_based"), A("always.good")];
    ResolveAlwaysGood();
    AlwaysGoodBlocks();
    AlwaysGoodNames();
    AlwaysGoodJoined();
    ReadBack(st, A("always.good"), out, ["default", "ping.host", "scollector.down", "host_based", "always.good"],
      "default,ping.host,scollector.down,host_based,always.good");
  }

  // Solver hint.
  lemma GenericNameChars()
    ensures AllNameChars("generic") && AllSpaces(" ")
  {
  }

  // Solver hint.
  lemma GenericText()
    ensures "template " + "generic" + " " + "{" + "\n}" == "template generic {\n}"
  {
  }

  /** A block's closing line holds no header. */
  lemma ClosingQuiet()
    ensures Sequence("\n}") == ""
  {
    assert FindAll("}") == [];
  }

  /** The `template generic` block of the second configuration contributes
      no name. */
  lemma GenericTemplateQuiet()
    ensures Sequence("template generic {\n}") == ""
  {
    GenericNameChars();
    TemplateBlockQuiet("generic", " ", "\n}");
    GenericText();
    ClosingQuiet();
  }

  // ---------------------------------------------------------------------
  // The tests.

  /** Compares the sequence of one alert's template with the expected one;
      an alert missing from the map reads as the empty template. */
  method AssertTemplateSequenceEqual(templates: map<string, string>, alert: string, expected: string)
    returns (ok: bool)
    ensures ok <==> Sequence(if alert in templates then templates[alert] else "") == expected
  {
    var template := if alert in templates then templates[alert] else "";
    var result := TemplateToSequence(template);
    ok := result == expected;
  }

  /** Assembles every alert of a store; fails when any alert does. */
  method AlertTemplateStrings(st: Store) returns (r: Result<map<string, string>>)
    ensures r.Ok? <==> forall n :: n in AssembleAll(st) ==> AssembleAll(st)[n].Ok?
    ensures r.Ok? ==> forall n :: n in r.value <==> A(n) in st
    ensures r.Ok? ==> forall n :: n in r.value ==> AssembleAlert(st, A(n)) == Ok(r.value[n])
  {
    var all := AssembleAll(st);
    if exists n :: n in all && all[n].Err? {
      var n :| n in all && all[n].Err?;
      return Err(all[n].error);
    }
    r := Ok(map n | n in all :: all[n].value);
  }

  /** Every alert of a sound store assembles. */
  lemma AllAssemble(st: Store, rank: map<Key, nat>)
    requires RefsDefined(st) && Ranked(st, rank)
    ensures forall n :: n in AssembleAll(st) ==> AssembleAll(st)[n].Ok?
  {
    forall n | n in AssembleAll(st) ensures AssembleAll(st)[n].Ok? {
      ResolveSucceeds(st, rank, A(n));
    }
  }

  method TestConfDependencies() returns (passed: bool)
    ensures passed
  {
    var st := ConfStore();
    ConfStoreSound();
    AllAssemble(st, ConfRanks());
    OsCpuSequence();
    PingHostSequence();
    var templates := AlertTemplateStrings(st);
    if templates.Err? {
      return false;
    }
    var ok := AssertTemplateSequenceEqual(templates.value, "os.cpu", "ping.host,scollector.down,host_based,os.cpu");
    if !ok {
      return false;
    }
    ok := AssertTemplateSequenceEqual(templates.value, "ping.host", "ping.host");
    passed := ok;
  }

  method TestKyleDependencies() returns (passed: bool)
    ensures passed
  {
    var st := KyleStore();
    KyleStoreSound();
    AllAssemble(st, KyleRanks());
    KyleSequences();
    var templates := AlertTemplateStrings(st);
    if templates.Err? {
      return false;
    }
    passed := AssertTemplateSequenceEqual(templates.value, "always.good",
      "default,ping.host,scollector.down,host_based,always.good");
  }
}
