/** Template assembly: the raw text of each resolved entity, in resolution
    order, each followed by a blank line; and the round trip the test relies
    on: reading the block headers back out of an assembled template gives the
    resolution order. */
module Assembler {
  import opened Config
  import opened Resolver
  import opened TemplateSequence

  /** Written after every block. */
  const Separator: string := "\n\n"

  /** The texts of `keys`, in order, each followed by the separator. */
  function Assemble(st: Store, keys: seq<Key>): string
    requires forall k :: k in keys ==> k in st
  {
    if keys == [] then "" else st[keys[0]].text + Separator + Assemble(st, keys[1..])
  }

  /** The assembled template of one alert, or the error that stopped its resolution. */
  function AssembleAlert(st: Store, root: Key): Result<string>
  {
    match Resolve(st, root)
    case Err(e) => Err(e)
    case Ok(out) => Ok(Assemble(st, out))
  }

  /** One entry per alert of the store; one alert's failure does not touch
      the entries of the others. */
  function AssembleAll(st: Store): (r: map<string, Result<string>>)
    ensures forall n :: n in r <==> Key(Alert, n) in st
    ensures forall n :: n in r ==> r[n] == AssembleAlert(st, Key(Alert, n))
  {
    map k | k in st && k.kind == Alert :: k.name := AssembleAlert(st, k)
  }

  /** A block's text opens with the header of its own key, ends with `}`,
      and holds no other header. */
  ghost predicate WellFormedBlock(k: Key, text: string)
  {
    && MatchAt(text).Some?
    && MatchAt(text).value.kind == k.kind && MatchAt(text).value.name == k.name
    && |text| > 0 && text[|text| - 1] == '}'
    && forall i :: MatchAt(text).value.len <= i < |text| ==> MatchAt(text[i..]).None?
  }

  /** The text of a block written as `<keyword> <name><gap>{<tail>`. */
  function BlockText(k: Key, gap: string, tail: string): string
  {
    KindWord(k.kind) + " " + k.name + gap + "{" + tail
  }

  /** Every key of keys is defined by a well-formed block. */
  ghost predicate WellFormedBlocks(st: Store, keys: seq<Key>)
  {
    forall k :: k in keys ==> k in st && WellFormedBlock(k, st[k].text)
  }

  // ---------------------------------------------------------------------
  // Headers inside longer texts.

  /** A header never contains `}`. */
  lemma HeaderHasNoCloseBrace(t: string, m: Match, j: nat)
    requires HeaderAt(t, m) && j < m.len
    ensures t[j] != '}'
  {
    var w := KindWord(m.kind);
    var h := HeaderText(m);
    assert t[j] == h[j];
    assert h == w + [' '] + m.name + m.gap + ['{'];
    var a, n := |w|, |m.name|;
    if j < a {
      assert h[j] == w[j];
      match m.kind
      case Alert =>
      case Macro =>
      case Notification =>
      case Lookup =>
    } else if a < j < a + 1 + n {
      assert h[j] == m.name[j - a - 1];
    } else if a + 1 + n <= j < a + 1 + n + |m.gap| {
      assert h[j] == m.gap[j - a - 1 - n];
    }
  }

  /** Text that begins with the separator's newline starts no header. */
  lemma NoMatchAtNewline(t: string)
    requires |t| > 0 && t[0] == '\n'
    ensures MatchAt(t).None?
  {
  }

  /** A header that starts before a `}` ends before it. */
  lemma HeaderBeforeCloseBrace(u: string, rest: string, m: Match)
    requires |u| > 0 && u[|u| - 1] == '}'
    requires HeaderAt(u + rest, m)
    ensures HeaderAt(u, m)
  {
    if m.len >= |u| {
      HeaderHasNoCloseBrace(u + rest, m, |u| - 1);
    } else {
      HeaderShrink(u, rest, m);
    }
  }

  /** A match that starts before a `}` ends before it. */
  lemma MatchBeforeCloseBrace(u: string, rest: string)
    requires |u| > 0 && u[|u| - 1] == '}'
    requires MatchAt(u + rest).Some?
    ensures MatchAt(u) == MatchAt(u + rest)
  {
    var m := MatchAt(u + rest).value;
    MatchAtSound(u + rest);
    HeaderBeforeCloseBrace(u, rest, m);
    MatchAtComplete(u, m);
  }

  /** Text ending with `}` that starts no match starts none whatever follows it. */
  lemma NoMatchBeforeCloseBrace(u: string, rest: string)
    requires |u| > 0 && u[|u| - 1] == '}'
    requires MatchAt(u).None?
    ensures MatchAt(u + rest).None?
  {
    if MatchAt(u + rest).Some? {
      MatchBeforeCloseBrace(u, rest);
    }
  }

  /** A suffix of a text ending with `}` that starts no match starts none
      whatever follows the text. */
  lemma SuffixNoMatch(text: string, rest: string, i: nat)
    requires i < |text| && text[|text| - 1] == '}'
    requires MatchAt(text[i..]).None?
    ensures MatchAt((text + rest)[i..]).None?
  {
    var u := text[i..];
    assert (text + rest)[i..] == u + rest;
    NoMatchBeforeCloseBrace(u, rest);
  }

  /** Past its header, a well-formed block starts no match, whatever follows it. */
  lemma NoMatchInBlockTail(k: Key, text: string, rest: string, i: nat)
    requires WellFormedBlock(k, text)
    requires MatchAt(text).value.len <= i < |text|
    ensures MatchAt((text + rest)[i..]).None?
  {
    assert MatchAt(text[i..]).None?;
    SuffixNoMatch(text, rest, i);
  }

  /** A block's own header is the first match of the block and what follows. */
  lemma HeaderFirst(text: string, tail: string)
    requires MatchAt(text).Some?
    ensures MatchAt(text + tail) == MatchAt(text)
  {
    var m := MatchAt(text).value;
    MatchAtSound(text);
    HeaderExtend(text, tail, m);
    MatchAtComplete(text + tail, m);
  }

  /** The separator after a block starts no match. */
  lemma SeparatorQuiet(text: string, rest: string, p: nat)
    requires |text| <= p < |text| + |Separator|
    ensures MatchAt((text + Separator + rest)[p..]).None?
  {
    NoMatchAtNewline((text + Separator + rest)[p..]);
  }

  /** After a well-formed block's header, nothing matches before the text
      that follows the block's separator. */
  lemma BlockTailQuiet(k: Key, text: string, rest: string)
    requires WellFormedBlock(k, text)
    ensures forall p :: MatchAt(text).value.len <= p < |text| + |Separator| ==>
      MatchAt((text + Separator + rest)[p..]).None?
  {
    var len := MatchAt(text).value.len;
    var t := text + Separator + rest;
    assert t == text + (Separator + rest);
    forall p | len <= p < |text| + |Separator| ensures MatchAt(t[p..]).None? {
      if p < |text| {
        NoMatchInBlockTail(k, text, Separator + rest, p);
      } else {
        SeparatorQuiet(text, rest, p);
      }
    }
  }

  /** A text that starts with a match: that match, then the matches after it. */
  lemma FindAllAt(t: string)
    requires MatchAt(t).Some?
    ensures FindAll(t) == [MatchAt(t).value] + FindAll(t[MatchAt(t).value.len..])
  {
  }

  /** A text that starts with a match, followed by anything: that match,
      then the matches after it. */
  lemma FindAllHead(text: string, sep: string, rest: string)
    requires MatchAt(text).Some?
    ensures FindAll(text + sep + rest)
         == [MatchAt(text).value] + FindAll((text + sep + rest)[MatchAt(text).value.len..])
  {
    var t := text + sep + rest;
    assert t == text + (sep + rest);
    HeaderFirst(text, sep + rest);
    FindAllAt(t);
  }

  /** From the end of a well-formed block's header, the matches are those of
      the text after the block's separator. */
  lemma BlockSkip(k: Key, text: string, rest: string)
    requires WellFormedBlock(k, text)
    ensures FindAll((text + Separator + rest)[MatchAt(text).value.len..]) == FindAll(rest)
  {
    var t := text + Separator + rest;
    var j := |text| + |Separator|;
    BlockTailQuiet(k, text, rest);
    SkipNoMatch(t, MatchAt(text).value.len, j);
    assert t[j..] == rest;
  }

  /** The matches in a well-formed block followed by anything: the block's
      own header, then the matches of what follows. */
  lemma BlockThenRest(k: Key, text: string, rest: string)
    requires WellFormedBlock(k, text)
    ensures FindAll(text + Separator + rest) == [MatchAt(text).value] + FindAll(rest)
  {
    FindAllHead(text, Separator, rest);
    BlockSkip(k, text, rest);
  }

  /** The keys of a first match and the matches after it. */
  lemma MatchKeysCons(m: Match, ms: seq<Match>)
    ensures MatchKeys([m] + ms) == [Key(m.kind, m.name)] + MatchKeys(ms)
  {
    assert forall i :: 0 < i <= |ms| ==> ([m] + ms)[i] == ms[i - 1];
  }

  /** Reading the headers back out of an assembled template gives the
      assembled keys, in order. */
  lemma {:induction false} AssembleFindAll(st: Store, keys: seq<Key>)
    requires WellFormedBlocks(st, keys)
    ensures MatchKeys(FindAll(Assemble(st, keys))) == keys
  {
    if keys != [] {
      var k, rest := keys[0], Assemble(st, keys[1..]);
      var text := st[k].text;
      assert WellFormedBlock(k, text);
      assert WellFormedBlocks(st, keys[1..]);
      var m := MatchAt(text).value;
      assert Key(m.kind, m.name) == k;
      BlockThenRest(k, text, rest);
      AssembleFindAll(st, keys[1..]);
      MatchKeysCons(m, FindAll(rest));
      assert keys == [k] + keys[1..];
    }
  }

  /** The round trip behind the dependency tests: when the blocks an alert
      resolves to are well formed, the sequence helper applied to the
      alert's assembled template returns the alert's resolution, names
      joined by commas. */
  lemma AssembledSequence(st: Store, root: Key)
    requires Resolve(st, root).Ok? && WellFormedBlocks(st, Resolve(st, root).value)
    ensures AssembleAlert(st, root).Ok?
    ensures Sequence(AssembleAlert(st, root).value) == Join(KeyNames(Resolve(st, root).value), ",")
  {
    AssembleFindAll(st, Resolve(st, root).value);
  }

  /** A block whose text is its own header followed by a tail without `{`
      that ends with `}` is well formed: nothing in the tail can complete a
      header. */
  lemma BlockWellFormed(k: Key, gap: string, tail: string)
    requires |k.name| > 0 && AllNameChars(k.name) && AllSpaces(gap)
    requires |tail| > 0 && tail[|tail| - 1] == '}'
    requires forall i :: 0 <= i < |tail| ==> tail[i] != '{'
    ensures WellFormedBlock(k, BlockText(k, gap, tail))
  {
    var text := BlockText(k, gap, tail);
    var m := Match(k.kind, k.name, gap, |KindWord(k.kind)| + |k.name| + |gap| + 2);
    assert HeaderText(m) == KindWord(k.kind) + " " + k.name + gap + "{";
    assert text == HeaderText(m) + tail;
    assert HeaderAt(text, m) by {
      assert text[..m.len] == HeaderText(m);
    }
    MatchAtComplete(text, m);
    forall i | m.len <= i < |text| ensures MatchAt(text[i..]).None? {
      if MatchAt(text[i..]).Some? {
        var m' := MatchAt(text[i..]).value;
        MatchAtSound(text[i..]);
        HeaderMarks(text[i..], m');
      }
    }
  }
}
