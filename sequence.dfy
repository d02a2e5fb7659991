/** The test helper that recovers the order of blocks in an assembled
    template: it finds every block header `alert|macro|notification|lookup
    <name> {` from left to right and joins the names with commas.

    The header pattern is matched by hand. At a given position it matches in
    at most one way: the four keywords start with different letters, the name
    must be the longest run of name characters (a shorter run is followed by
    a name character, which is neither whitespace nor `{`), and the
    whitespace before `{` must be the longest run of whitespace. So the
    leftmost non-overlapping matches are found by trying each position in
    turn and jumping past every match. */
module TemplateSequence {
  import opened Config

  /** `[a-z0-9._]` */
  predicate IsNameChar(c: char)
  {
    ('a' <= c <= 'z') || ('0' <= c <= '9') || c == '.' || c == '_'
  }

  /** `\s`: space, tab, newline, form feed, carriage return. */
  predicate IsSpace(c: char)
  {
    c == ' ' || c == '\t' || c == '\n' || c == '\U{000C}' || c == '\r'
  }

  predicate AllNameChars(s: string)
  {
    forall i :: 0 <= i < |s| ==> IsNameChar(s[i])
  }

  predicate AllSpaces(s: string)
  {
    forall i :: 0 <= i < |s| ==> IsSpace(s[i])
  }

  /** One match of the header pattern: the keyword's kind (group 1), the name
      (group 2), the whitespace before `{` (group 3) and the match's length. */
  datatype Match = Match(kind: Kind, name: string, gap: string, len: nat)

  /** The text the pattern matched for m. */
  function HeaderText(m: Match): string
  {
    KindWord(m.kind) + " " + m.name + m.gap + "{"
  }

  /** The pattern, stated declaratively: t starts with a header whose pieces
      are those of m. */
  ghost predicate HeaderAt(t: string, m: Match)
  {
    && |m.name| > 0 && AllNameChars(m.name) && AllSpaces(m.gap)
    && m.len == |HeaderText(m)| && m.len <= |t| && t[..m.len] == HeaderText(m)
  }

  /** The keyword t starts with, if any. */
  function KeywordAt(t: string): (r: Option<Kind>)
    ensures r.Some? ==> KindWord(r.value) <= t
    ensures r.None? ==> forall k: Kind :: !(KindWord(k) <= t)
  {
    if KindWord(Alert) <= t then Some(Alert)
    else if KindWord(Macro) <= t then Some(Macro)
    else if KindWord(Notification) <= t then Some(Notification)
    else if KindWord(Lookup) <= t then Some(Lookup)
    else None
  }

  /** Length of the longest prefix of name characters. */
  function NameRun(t: string): (n: nat)
    ensures n <= |t| && AllNameChars(t[..n])
    ensures n < |t| ==> !IsNameChar(t[n])
  {
    if t != [] && IsNameChar(t[0]) then
      var n := 1 + NameRun(t[1..]);
      assert forall i :: 1 <= i < n ==> t[..n][i] == t[1..][..n - 1][i - 1];
      n
    else 0
  }

  /** Length of the longest prefix of whitespace. */
  function SpaceRun(t: string): (n: nat)
    ensures n <= |t| && AllSpaces(t[..n])
    ensures n < |t| ==> !IsSpace(t[n])
  {
    if t != [] && IsSpace(t[0]) then
      var n := 1 + SpaceRun(t[1..]);
      assert forall i :: 1 <= i < n ==> t[..n][i] == t[1..][..n - 1][i - 1];
      n
    else 0
  }

  /** The match of the header pattern at the start of t, if there is one. */
  function MatchAt(t: string): (r: Option<Match>)
    ensures r.Some? ==> 0 < r.value.len <= |t|
  {
    match KeywordAt(t)
    case None => None
    case Some(kind) => MatchAfter(t, kind)
  }

  /** The rest of the pattern, once t is known to start with kind's keyword. */
  function MatchAfter(t: string, kind: Kind): (r: Option<Match>)
    ensures r.Some? ==> 0 < r.value.len <= |t| && r.value.kind == kind
  {
    MatchFrom(t, kind, |KindWord(kind)|)
  }

  /** The rest of the pattern after a keyword of length a: one space, the
      longest run of name characters (not empty), the longest run of
      whitespace, and `{`. */
  function MatchFrom(t: string, kind: Kind, a: nat): (r: Option<Match>)
    ensures r.Some? ==> 0 < r.value.len <= |t| && r.value.kind == kind
  {
    if a < |t| && t[a] == ' ' then
      var n := NameRun(t[a + 1..]);
      MatchRuns(t, kind, a, n, SpaceRun(t[a + 1 + n..]))
    else None
  }

  /** The end of the pattern once its name (n characters from a + 1) and
      its gap (g characters after the name) are known: it needs a name and
      a `{`. */
  function MatchRuns(t: string, kind: Kind, a: nat, n: nat, g: nat): (r: Option<Match>)
    requires a + 1 + n + g <= |t|
    ensures r.Some? ==> 0 < r.value.len <= |t| && r.value.kind == kind
  {
    var e := a + 1 + n + g;
    if n > 0 && e < |t| && t[e] == '{' then
      Some(Match(kind, t[a + 1..a + 1 + n], t[a + 1 + n..e], e + 1))
    else None
  }

  /** Every match of the header pattern, leftmost first, none overlapping;
      each match takes at least one character, so there are at most as many
      matches as characters. */
  function FindAll(t: string): (r: seq<Match>)
    ensures |r| <= |t|
    decreases |t|
  {
    if t == [] then []
    else match MatchAt(t)
      case Some(m) => [m] + FindAll(t[m.len..])
      case None => FindAll(t[1..])
  }

  /** The (kind, name) of each match: groups 1 and 2. */
  function MatchKeys(ms: seq<Match>): seq<Key>
  {
    seq(|ms|, i requires 0 <= i < |ms| => Key(ms[i].kind, ms[i].name))
  }

  /** The elements of ns separated by sep. */
  function Join(ns: seq<string>, sep: string): string
  {
    if ns == [] then ""
    else if |ns| == 1 then ns[0]
    else ns[0] + sep + Join(ns[1..], sep)
  }

  /** What the helper returns for a template. */
  function Sequence(template: string): string
  {
    Join(KeyNames(MatchKeys(FindAll(template))), ",")
  }

  /** The helper itself: collect the name of every match, in order, then
      join them with commas. */
  method TemplateToSequence(template: string) returns (s: string)
    ensures s == Sequence(template)
  {
    var matches := FindAll(template);
    var names: seq<string> := [];
    var i := 0;
    while i < |matches|
      invariant 0 <= i <= |matches|
      invariant names == KeyNames(MatchKeys(matches[..i]))
    {
      names := names + [matches[i].name];
      i := i + 1;
    }
    assert matches[..i] == matches;
    s := Join(names, ",");
  }

  // ---------------------------------------------------------------------
  // The hand-written matcher agrees with the pattern.

  /** The pieces of a match after a keyword of length a: one space, the
      name, the gap and `{`. */
  ghost predicate PiecesAt(t: string, m: Match, a: nat)
  {
    var n, g := |m.name|, |m.gap|;
    && n > 0 && AllNameChars(m.name) && AllSpaces(m.gap)
    && m.len == a + n + g + 2 && m.len <= |t| && t[a] == ' '
    && t[a + 1..a + 1 + n] == m.name && t[a + 1 + n..a + 1 + n + g] == m.gap
    && t[a + 1 + n + g] == '{'
  }

  /** A header's text, read back piece by piece. */
  lemma HeaderPieces(t: string, m: Match)
    requires HeaderAt(t, m)
    ensures KindWord(m.kind) <= t && PiecesAt(t, m, |KindWord(m.kind)|)
  {
    var w, h := KindWord(m.kind), HeaderText(m);
    var a, n, g := |w|, |m.name|, |m.gap|;
    assert t[..m.len] == h;
    assert h == w + [' '] + m.name + m.gap + ['{'];
    forall i | 0 <= i < a ensures t[i] == w[i] {
      assert t[i] == h[i];
    }
    assert t[..a] == w;
    assert t[a] == h[a];
    forall i | 0 <= i < n ensures t[a + 1 + i] == m.name[i] {
      assert t[a + 1 + i] == h[a + 1 + i];
    }
    forall i | 0 <= i < g ensures t[a + 1 + n + i] == m.gap[i] {
      assert t[a + 1 + n + i] == h[a + 1 + n + i];
    }
    assert t[a + 1 + n + g] == h[a + 1 + n + g];
  }

  /** The pieces of a header, put back together. */
  lemma HeaderFromPieces(t: string, m: Match)
    requires KindWord(m.kind) <= t && PiecesAt(t, m, |KindWord(m.kind)|)
    ensures HeaderAt(t, m)
  {
    var w, h := KindWord(m.kind), HeaderText(m);
    var a, n, g := |w|, |m.name|, |m.gap|;
    assert h == w + [' '] + m.name + m.gap + ['{'];
    forall i | 0 <= i < m.len ensures t[i] == h[i] {
      if i < a {
        assert t[..a][i] == w[i] == h[i];
      } else if i == a {
        assert h[i] == ' ';
      } else if i < a + 1 + n {
        assert t[a + 1..a + 1 + n][i - a - 1] == m.name[i - a - 1] == h[i];
      } else if i < a + 1 + n + g {
        assert t[a + 1 + n..a + 1 + n + g][i - a - 1 - n] == m.gap[i - a - 1 - n] == h[i];
      } else {
        assert h[i] == '{';
      }
    }
    assert t[..m.len] == h;
  }

  /** Only one keyword can start a text: the four begin with different letters. */
  lemma KeywordUnique(t: string, k: Kind)
    requires KindWord(k) <= t
    ensures KeywordAt(t) == Some(k)
  {
    assert t[0] == KindWord(k)[0];
  }

  /** What MatchFrom reports has the pieces the pattern asks for. */
  lemma MatchFromSound(t: string, kind: Kind, a: nat)
    requires MatchFrom(t, kind, a).Some?
    ensures PiecesAt(t, MatchFrom(t, kind, a).value, a)
  {
    var m := MatchFrom(t, kind, a).value;
    var u := t[a + 1..];
    var n := NameRun(u);
    var v := t[a + 1 + n..];
    var g := SpaceRun(v);
    assert m.name == u[..n];
    assert m.gap == v[..g];
  }

  /** Soundness: whatever MatchAt reports is a header as the pattern
      describes it: one of the four keywords, one space, a non-empty name of
      `[a-z0-9._]`, optional whitespace and `{`. */
  lemma MatchAtSound(t: string)
    requires MatchAt(t).Some?
    ensures HeaderAt(t, MatchAt(t).value)
  {
    var kind := KeywordAt(t).value;
    MatchFromSound(t, kind, |KindWord(kind)|);
    HeaderFromPieces(t, MatchAt(t).value);
  }

  /** The longest run of name characters is unique. */
  lemma NameRunIs(u: string, n: nat)
    requires n < |u| && AllNameChars(u[..n]) && !IsNameChar(u[n])
    ensures NameRun(u) == n
  {
  }

  /** The longest run of whitespace is unique. */
  lemma SpaceRunIs(v: string, g: nat)
    requires g < |v| && AllSpaces(v[..g]) && !IsSpace(v[g])
    ensures SpaceRun(v) == g
  {
  }

  /** The name of pieces after a keyword is the longest run of name characters there. */
  lemma PiecesNameRun(t: string, m: Match, a: nat)
    requires PiecesAt(t, m, a)
    ensures NameRun(t[a + 1..]) == |m.name|
  {
    var n, g := |m.name|, |m.gap|;
    var u := t[a + 1..];
    assert u[..n] == m.name;
    assert n < |u| && !IsNameChar(u[n]) by {
      if g > 0 {
        assert u[n] == m.gap[0];
      } else {
        assert u[n] == '{';
      }
    }
    NameRunIs(u, n);
  }

  /** The gap of pieces after a keyword is the longest run of spaces after the name. */
  lemma PiecesSpaceRun(t: string, m: Match, a: nat)
    requires PiecesAt(t, m, a)
    ensures SpaceRun(t[a + 1 + |m.name|..]) == |m.gap|
  {
    var v := t[a + 1 + |m.name|..];
    assert v[..|m.gap|] == m.gap;
    assert v[|m.gap|] == '{';
    SpaceRunIs(v, |m.gap|);
  }

  /** After the space, MatchFrom goes on with the two runs it measures. */
  lemma MatchFromRuns(t: string, kind: Kind, a: nat, n: nat, g: nat)
    requires a < |t| && t[a] == ' '
    requires NameRun(t[a + 1..]) == n && SpaceRun(t[a + 1 + n..]) == g
    ensures MatchFrom(t, kind, a) == MatchRuns(t, kind, a, n, g)
  {
  }

  /** With the runs of pieces after a keyword, MatchRuns reports those pieces. */
  lemma MatchRunsPieces(t: string, m: Match, a: nat)
    requires PiecesAt(t, m, a)
    ensures MatchRuns(t, m.kind, a, |m.name|, |m.gap|) == Some(m)
  {
  }

  /** Pieces after a keyword are exactly what MatchFrom reports. */
  lemma MatchFromComplete(t: string, m: Match, a: nat)
    requires PiecesAt(t, m, a)
    ensures MatchFrom(t, m.kind, a) == Some(m)
  {
    var n, g := |m.name|, |m.gap|;
    PiecesNameRun(t, m, a);
    PiecesSpaceRun(t, m, a);
    MatchFromRuns(t, m.kind, a, n, g);
    MatchRunsPieces(t, m, a);
  }

  /** Completeness: a header at the start of t is exactly what MatchAt reports. */
  lemma MatchAtComplete(t: string, m: Match)
    requires HeaderAt(t, m)
    ensures MatchAt(t) == Some(m)
  {
    HeaderPieces(t, m);
    KeywordUnique(t, m.kind);
    MatchFromComplete(t, m, |KindWord(m.kind)|);
  }

  // ---------------------------------------------------------------------
  // Headers and matches inside longer texts.

  /** A header at the start of a stays one when more text follows. */
  lemma HeaderExtend(a: string, b: string, m: Match)
    requires HeaderAt(a, m)
    ensures HeaderAt(a + b, m)
  {
    assert (a + b)[..m.len] == a[..m.len];
  }

  /** A header that fits in a is one of a. */
  lemma HeaderShrink(a: string, b: string, m: Match)
    requires HeaderAt(a + b, m) && m.len <= |a|
    ensures HeaderAt(a, m)
  {
    assert (a + b)[..m.len] == a[..m.len];
  }

  /** Positions without a match add nothing to the matches found. */
  lemma {:induction false} SkipNoMatch(t: string, s: nat, j: nat)
    requires s <= j <= |t|
    requires forall p :: s <= p < j ==> MatchAt(t[p..]).None?
    ensures FindAll(t[s..]) == FindAll(t[j..])
    decreases j - s
  {
    if s < j {
      assert t[s..][1..] == t[s + 1..];
      SkipNoMatch(t, s + 1, j);
    }
  }

  // ---------------------------------------------------------------------
  // What the helper returns.

  /** Every reported name is non-empty and drawn from `[a-z0-9._]`, so none
      contains the comma that separates them. */
  lemma {:induction false} FindAllNames(t: string)
    ensures forall m :: m in FindAll(t) ==> |m.name| > 0 && AllNameChars(m.name)
    decreases |t|
  {
    if t != [] {
      match MatchAt(t)
      case Some(m) =>
        MatchAtSound(t);
        FindAllNames(t[m.len..]);
      case None =>
        FindAllNames(t[1..]);
    }
  }

  /** No match is found exactly when the pattern matches at no position. */
  lemma {:induction false} FindAllEmpty(t: string)
    ensures FindAll(t) == [] <==> forall i :: 0 <= i < |t| ==> MatchAt(t[i..]).None?
    decreases |t|
  {
    if t != [] {
      assert t[0..] == t;
      FindAllEmpty(t[1..]);
      if MatchAt(t).None? {
        forall i | 0 <= i < |t| - 1 ensures t[1..][i..] == t[i + 1..] { }
        if forall i :: 0 <= i < |t| - 1 ==> MatchAt(t[1..][i..]).None? {
          forall i | 0 <= i < |t| ensures MatchAt(t[i..]).None? {
            if i > 0 {
              assert t[i..] == t[1..][i - 1..];
            }
          }
        }
      }
    }
  }

  /** Joining non-empty names gives the empty string only for no names. */
  lemma {:induction false} JoinEmpty(ns: seq<string>, sep: string)
    requires forall i :: 0 <= i < |ns| ==> |ns[i]| > 0
    ensures Join(ns, sep) == "" <==> ns == []
  {
    if |ns| > 1 {
      assert |Join(ns, sep)| >= |ns[0]|;
    }
  }

  /** Joining one more name appends the separator and that name. */
  lemma {:induction false} JoinSnoc(ns: seq<string>, n: string, sep: string)
    requires ns != []
    ensures Join(ns + [n], sep) == Join(ns, sep) + sep + n
    decreases |ns|
  {
    assert (ns + [n])[0] == ns[0] && (ns + [n])[1..] == ns[1..] + [n];
    if |ns| > 1 {
      JoinSnoc(ns[1..], n, sep);
    }
  }

  /** The helper returns the empty string exactly when the template holds no
      block header at any position. */
  lemma SequenceEmpty(template: string)
    ensures Sequence(template) == "" <==> forall i :: 0 <= i < |template| ==> MatchAt(template[i..]).None?
  {
    var ms := FindAll(template);
    FindAllNames(template);
    FindAllEmpty(template);
    var ns := KeyNames(MatchKeys(ms));
    forall i | 0 <= i < |ms| ensures |ns[i]| > 0 {
      assert ms[i] in ms;
    }
    JoinEmpty(ns, ",");
  }

  // ---------------------------------------------------------------------
  // Blocks the pattern does not count.

  /** The landmarks of a header: the space after its keyword, a name
      character after that, its closing `{`, and no `{` before it. */
  lemma HeaderMarks(u: string, m: Match)
    requires HeaderAt(u, m)
    ensures var a := |KindWord(m.kind)|;
      && u[a] == ' ' && IsNameChar(u[a + 1]) && u[m.len - 1] == '{' && m.len >= a + 3
      && forall j :: a + 1 <= j < m.len - 1 ==> u[j] != '{'
  {
    HeaderPieces(u, m);
    var a, n, g := |KindWord(m.kind)|, |m.name|, |m.gap|;
    assert m.name[0] == u[a + 1];
    forall j | a + 1 <= j < m.len - 1 ensures u[j] != '{' {
      if j < a + 1 + n {
        assert u[j] == m.name[j - a - 1];
      } else {
        assert u[j] == m.gap[j - a - 1 - n];
      }
    }
  }

  /** The character layout of `template <name><gap>{<tail>`. */
  predicate TemplateLayout(t: string, p: nat, q: nat)
  {
    && 9 <= p <= q < |t| && t[..9] == "template "
    && (forall j :: 9 <= j < p ==> IsNameChar(t[j]))
    && (forall j :: p <= j < q ==> IsSpace(t[j]))
    && t[q] == '{' && (forall j :: q < j < |t| ==> t[j] != '{')
  }

  /** The only `{` of the layout is the one at q. */
  lemma LayoutBrace(t: string, p: nat, q: nat, e: nat)
    requires TemplateLayout(t, p, q) && e < |t| && t[e] == '{'
    ensures e == q
  {
  }

  /** Before the gap, only the space after `template` is a space. */
  lemma LayoutSpace(t: string, p: nat, q: nat, s: nat)
    requires TemplateLayout(t, p, q) && s < p && t[s] == ' '
    ensures s == 8
  {
    if s < 9 {
      assert t[s] == t[..9][s];
    }
  }

  /** No keyword ends right before the space after `template`. */
  lemma LayoutKeyword(t: string, p: nat, q: nat, i: nat, k: Kind)
    requires TemplateLayout(t, p, q) && i + |KindWord(k)| == 8
    ensures !(KindWord(k) <= t[i..])
  {
    assert t[i] == t[..9][i];
    assert t[i..][0] == t[i];
  }

  /** No header starts anywhere in that layout. */
  lemma TemplateNoHeader(t: string, p: nat, q: nat, i: nat, m: Match)
    requires TemplateLayout(t, p, q) && i < |t|
    ensures !HeaderAt(t[i..], m)
  {
    if HeaderAt(t[i..], m) {
      HeaderMarks(t[i..], m);
      HeaderPieces(t[i..], m);
      var s, e := i + |KindWord(m.kind)|, i + m.len - 1;
      LayoutBrace(t, p, q, e);
      if s < p {
        LayoutSpace(t, p, q, s);
        LayoutKeyword(t, p, q, i, m.kind);
      }
    }
  }

  /** The `{` that ends a header is its first. */
  lemma HeaderBraceLast(u: string, m: Match, j: nat)
    requires HeaderAt(u, m) && j < m.len - 1
    ensures u[j] != '{'
  {
    HeaderMarks(u, m);
    var w := KindWord(m.kind);
    if j < |w| {
      HeaderPieces(u, m);
      assert u[j] == w[j];
      match m.kind
      case Alert =>
      case Macro =>
      case Notification =>
      case Lookup =>
    }
  }

  /** A match ends at or before the first `{` of the text. */
  lemma MatchEndsByBrace(u: string, j: nat)
    requires MatchAt(u).Some? && j < |u| && u[j] == '{'
    ensures MatchAt(u).value.len <= j + 1
  {
    var m := MatchAt(u).value;
    MatchAtSound(u);
    if j < m.len - 1 {
      HeaderBraceLast(u, m, j);
    }
  }

  /** A text that ends with `{` and holds no header starts no match,
      whatever follows it. */
  lemma NoMatchBeforeOpenBrace(v: string, tail: string)
    requires |v| > 0 && v[|v| - 1] == '{'
    requires forall m :: !HeaderAt(v, m)
    ensures MatchAt(v + tail).None?
  {
    if MatchAt(v + tail).Some? {
      var m := MatchAt(v + tail).value;
      MatchEndsByBrace(v + tail, |v| - 1);
      MatchAtSound(v + tail);
      HeaderShrink(v, tail, m);
    }
  }

  /** No match starts within a `template` header, whatever follows it. */
  lemma TemplateHeaderNoMatch(h: string, tail: string, p: nat, q: nat, i: nat)
    requires TemplateLayout(h, p, q) && q == |h| - 1 && i <= q
    ensures MatchAt((h + tail)[i..]).None?
  {
    var v := h[i..];
    forall m ensures !HeaderAt(v, m) {
      TemplateNoHeader(h, p, q, i, m);
    }
    assert (h + tail)[i..] == v + tail;
    NoMatchBeforeOpenBrace(v, tail);
  }

  /** A `template` header adds no name and leaves the matches of what
      follows it unchanged: `template` is not one of the four keywords, and
      no header can start inside the `template` header and end in the tail,
      since a header holds no `{` before its last character. */
  lemma TemplateBlockQuiet(name: string, gap: string, tail: string)
    requires AllNameChars(name) && AllSpaces(gap)
    ensures FindAll("template " + name + gap + "{" + tail) == FindAll(tail)
    ensures Sequence("template " + name + gap + "{" + tail) == Sequence(tail)
  {
    var h := "template " + name + gap + "{";
    var t := h + tail;
    var p, q := 9 + |name|, 9 + |name| + |gap|;
    assert TemplateLayout(h, p, q) by {
      assert h[..9] == "template ";
      assert forall j :: 9 <= j < p ==> h[j] == name[j - 9];
      assert forall j :: p <= j < q ==> h[j] == gap[j - p];
    }
    forall i | 0 <= i < q + 1 ensures MatchAt(t[i..]).None? {
      TemplateHeaderNoMatch(h, tail, p, q, i);
    }
    SkipNoMatch(t, 0, q + 1);
    assert t[0..] == t && t[q + 1..] == tail;
  }
}
