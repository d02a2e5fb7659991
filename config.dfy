/** Entities of an alerting configuration and the references between them.
    An entity is keyed by its kind and its name; its references are taken, in
    declaration order, from the fields that name other entities. */
module Config {

  datatype Option<+T> = None | Some(value: T)

  /** The four kinds of block whose dependencies are resolved. */
  datatype Kind = Alert | Macro | Notification | Lookup

  /** (kind, name) is the key of an entity: names are unique per kind only. */
  datatype Key = Key(kind: Kind, name: string)

  /** The fields of a block that matter for resolution. Every other line
      (queries, `warn = ...`, `template = ...`) is opaque text. */
  datatype Field =
    | Depends(alerts: seq<string>)              // depends = alert("a", "warn") ...
    | UseMacro(macro: string)                   // macro = host_based
    | Notify(severity: string, target: string)  // warnNotification = default
    | UseLookup(lookup: string)                 // lookup = ...
    | Opaque(line: string)

  /** A parsed block: its raw text and its ordered references. */
  datatype Entity = Entity(text: string, refs: seq<Key>)

  /** Built once by the configuration loader and never changed afterwards. */
  type Store = map<Key, Entity>

  /** The keyword that opens a block of the given kind. */
  function KindWord(k: Kind): (w: string)
    ensures |w| >= 5
  {
    match k
    case Alert => "alert"
    case Macro => "macro"
    case Notification => "notification"
    case Lookup => "lookup"
  }

  /** The alert keys a `depends` field names, in order. */
  function AlertKeys(names: seq<string>): (r: seq<Key>)
    ensures |r| == |names|
    ensures forall i :: 0 <= i < |r| ==> r[i] == Key(Alert, names[i])
  {
    if names == [] then [] else [Key(Alert, names[0])] + AlertKeys(names[1..])
  }

  /** The name of each key, in order. */
  function KeyNames(ks: seq<Key>): seq<string>
  {
    seq(|ks|, i requires 0 <= i < |ks| => ks[i].name)
  }

  /** The references one field contributes. */
  function FieldRefs(f: Field): seq<Key>
  {
    match f
    case Depends(alerts) => AlertKeys(alerts)
    case UseMacro(m) => [Key(Macro, m)]
    case Notify(_, n) => [Key(Notification, n)]
    case UseLookup(l) => [Key(Lookup, l)]
    case Opaque(_) => []
  }

  /** The reference list of a block: its fields' references in declaration order. */
  function ExtractRefs(fields: seq<Field>): seq<Key>
  {
    if fields == [] then [] else FieldRefs(fields[0]) + ExtractRefs(fields[1..])
  }

  /** Reference extraction is declaration-ordered: the references of a block
      split at any field are those of the first part followed by those of the rest. */
  lemma {:induction false} ExtractRefsAppend(a: seq<Field>, b: seq<Field>)
    ensures ExtractRefs(a + b) == ExtractRefs(a) + ExtractRefs(b)
  {
    if a == [] {
      assert a + b == b;
    } else {
      assert (a + b)[1..] == a[1..] + b;
      ExtractRefsAppend(a[1..], b);
    }
  }

  /** A key is referenced exactly when some field names it; absent fields
      contribute nothing. */
  lemma {:induction false} ExtractRefsMember(fields: seq<Field>, k: Key)
    ensures k in ExtractRefs(fields) <==> exists i :: 0 <= i < |fields| && k in FieldRefs(fields[i])
  {
    if fields != [] {
      ExtractRefsMember(fields[1..], k);
      if k in ExtractRefs(fields[1..]) {
        var i :| 0 <= i < |fields[1..]| && k in FieldRefs(fields[1..][i]);
        assert k in FieldRefs(fields[i + 1]);
      }
      if exists i :: 0 <= i < |fields| && k in FieldRefs(fields[i]) {
        var i :| 0 <= i < |fields| && k in FieldRefs(fields[i]);
        if i > 0 {
          assert k in FieldRefs(fields[1..][i - 1]);
        }
      }
    }
  }
}
