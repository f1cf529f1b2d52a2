/**
 * The infuser of vue-i18n-locale-message: it rebuilds a Vue single-file
 * component so that its `<i18n>` blocks carry the updated locale messages
 * of the meta data, and keeps every other byte of the file as it was.
 *
 * The collaborators whose code lies elsewhere (the SFC descriptor reader,
 * the content decoder and encoder, the attribute escaper and prettier) are
 * the fields of an `Externals` value: the model fixes what each of them is
 * given, not what it returns.
 */
module Infuser {
  import opened Optional
  import opened Splicing
  import opened Attributes
  import opened Sequences

  // ---------------------------------------------------------------------
  // Data model
  // ---------------------------------------------------------------------

  /** Locale messages as the JavaScript value they decode to. */
  datatype Messages = Undefined | Leaf(text: string) | Tree(children: map<string, Messages>)

  /** `messages[key]`: the child under `key`, `undefined` when there is none. */
  function Index(m: Messages, key: string): Messages
  {
    if m.Tree? && key in m.children then m.children[key] else Undefined
  }

  /** The value of a tag attribute: a string, or `true` for an attribute written without a value. */
  datatype AttrValue = Text(s: string) | Present

  /** The `type` of an SFC block: the three fixed sections, or a custom block's tag name. */
  datatype BlockKind = Template | Script | Style | Custom(tag: string)

  /**
   * An SFC block: its kind, the half-open range `[start, end)` of its
   * content in the file, its `lang` and `locale` attributes and its content.
   */
  datatype Block = Block(
    kind: BlockKind,
    start: nat,
    end: nat,
    lang: Option<AttrValue>,
    locale: Option<AttrValue>,
    content: string)

  /** The parsed file: path, raw text, and its blocks as the SFC parser groups them. */
  datatype Descriptor = Descriptor(
    contentPath: string,
    raw: string,
    template: Option<Block>,
    script: Option<Block>,
    styles: seq<Block>,
    customBlocks: seq<Block>)

  /** One meta entry (an `SFCI18nBlock`): the messages one `<i18n>` block is to hold. */
  datatype MetaEntry = MetaEntry(lang: string, locale: Option<string>, messages: Messages)

  /** The meta data: the entries of each component, by content path. */
  datatype Meta = Meta(components: map<string, seq<MetaEntry>>)

  /** A file: its content and its path. */
  datatype FileInfo = FileInfo(content: string, path: string)

  /** The prettier parsers the formatter picks from. */
  datatype Parser = Yaml | Json5 | JsonStringify

  /** The options handed to prettier. */
  datatype PrettierOptions = PrettierOptions(parser: Parser, tabWidth: nat)

  /** The collaborators the infuser calls but does not define. */
  datatype Externals = Externals(
    reflectSFCDescriptor: (string, seq<FileInfo>) -> seq<Descriptor>,
    parseContent: (string, string) -> Messages,
    stringfyContent: (Messages, string) -> string,
    escape: string -> string,
    prettierFormat: (string, PrettierOptions) -> string)

  // ---------------------------------------------------------------------
  // format
  // ---------------------------------------------------------------------

  /** The indentation every prettier call asks for. */
  const TabWidth: nat := 2

  /** The prettier parser for a lang tag; `None` for `vue`, which is passed through. */
  function ParserFor(lang: string): (r: Option<Parser>)
    ensures r == None <==> lang == "vue"
    ensures r == Some(Yaml) <==> lang == "yaml" || lang == "yml"
    ensures r == Some(Json5) <==> lang == "json5"
    ensures r == Some(JsonStringify) <==> lang != "vue" && lang != "yaml" && lang != "yml" && lang != "json5"
  {
    if lang == "vue" then None
    else if lang == "yaml" || lang == "yml" then Some(Yaml)
    else if lang == "json5" then Some(Json5)
    else Some(JsonStringify)
  }

  /** Pretty-prints `source` as `lang`. */
  function Format(ext: Externals, source: string, lang: string): (r: string)
    ensures lang == "vue" ==> r == source
    ensures lang != "vue" ==> r == ext.prettierFormat(source, PrettierOptions(ParserFor(lang).value, TabWidth))
  {
    match ParserFor(lang)
    case None => source
    case Some(parser) => ext.prettierFormat(source, PrettierOptions(parser, TabWidth))
  }

  /** Langs that share a parser format alike; an unknown lang formats as `json`. */
  lemma FormatAliases(ext: Externals, source: string, lang: string)
    ensures Format(ext, source, "yml") == Format(ext, source, "yaml")
    ensures lang !in {"vue", "yaml", "yml", "json5"} ==> Format(ext, source, lang) == Format(ext, source, "json")
  {
  }

  // ---------------------------------------------------------------------
  // Matching a block with its meta entry
  // ---------------------------------------------------------------------

  /** A block's lang: its `lang` attribute when that is a non-empty string, `json` otherwise. */
  function EffectiveLang(lang: Option<AttrValue>): (r: string)
    ensures r != ""
    ensures r == "json" || lang == Some(Text(r))
    ensures lang.Some? && lang.value.Text? && lang.value.s != "" ==> r == lang.value.s
  {
    match lang
    case Some(Text(s)) => if s == "" then "json" else s
    case _ => "json"
  }

  /** `block.attrs.locale === entry.locale`. */
  predicate SameLocale(blockLocale: Option<AttrValue>, entryLocale: Option<string>)
  {
    match blockLocale
    case None => entryLocale == None
    case Some(Text(s)) => entryLocale == Some(s)
    case Some(Present) => false
  }

  /** The block and the entry agree on lang and on locale. */
  predicate Matches(b: Block, e: MetaEntry)
  {
    EffectiveLang(b.lang) == e.lang && SameLocale(b.locale, e.locale)
  }

  /** The entry's messages for its locale when it names one, all its messages otherwise. */
  function EntryMessages(e: MetaEntry): Messages
  {
    if e.locale.Some? && e.locale.value != "" then Index(e.messages, e.locale.value) else e.messages
  }

  /**
   * The messages an i18n block is rebuilt from: the entry's when the two
   * match, else the block's own content decoded again.
   */
  function Resolve(ext: Externals, b: Block, e: MetaEntry): (r: Messages)
    ensures Matches(b, e) ==> r == EntryMessages(e)
    ensures !Matches(b, e) ==> r == ext.parseContent(b.content, EffectiveLang(b.lang))
  {
    var lang := EffectiveLang(b.lang);
    if lang == e.lang && SameLocale(b.locale, e.locale) then
      // `if (locale)` on the block's locale, a non-empty string here
      if b.locale.Some? && b.locale.value.Text? && b.locale.value.s != "" then
        Index(e.messages, b.locale.value.s)
      else
        e.messages
    else
      ext.parseContent(b.content, lang)
  }

  /** What an i18n block's range becomes: a newline and the formatted messages. */
  function Serialized(ext: Externals, b: Block, e: MetaEntry): string
  {
    var lang := EffectiveLang(b.lang);
    "\n" + Format(ext, ext.stringfyContent(Resolve(ext, b, e), lang), lang)
  }

  /** On a match the block's old content plays no part. */
  lemma MatchIgnoresContent(ext: Externals, b: Block, e: MetaEntry, content: string)
    requires Matches(b, e)
    ensures Serialized(ext, b, e) == Serialized(ext, b.(content := content), e)
  {
  }

  /** On a mismatch the entry's messages play no part. */
  lemma MismatchIgnoresMessages(ext: Externals, b: Block, e: MetaEntry, messages: Messages)
    requires !Matches(b, e)
    ensures Serialized(ext, b, e) == Serialized(ext, b, e.(messages := messages))
  {
  }

  // ---------------------------------------------------------------------
  // buildI18nTag
  // ---------------------------------------------------------------------

  /** The opening `<i18n ...>` tag of a new block for the entry. */
  function OpenTag(ext: Externals, e: MetaEntry): string
  {
    "<i18n"
    + (if e.locale.Some? && e.locale.value != "" then " locale=\"" + ext.escape(e.locale.value) + "\"" else "")
    + (if e.lang != "json" then " lang=\"" + ext.escape(e.lang) + "\"" else "")
    + ">"
  }

  /** A new `<i18n>` block for an entry that has no block in the file. */
  function BuildI18nTag(ext: Externals, e: MetaEntry): string
  {
    "\n\n" + OpenTag(ext, e) + "\n" + Format(ext, ext.stringfyContent(EntryMessages(e), e.lang), e.lang) + "</i18n>"
  }

  /**
   * A new block starts on a fresh line after a blank one with the opening
   * tag, holds a line break and the entry's messages formatted as its lang,
   * and ends with `</i18n>`.
   */
  lemma BuildI18nTagShape(ext: Externals, e: MetaEntry)
    ensures var r := BuildI18nTag(ext, e); var tag := OpenTag(ext, e);
      var body := Format(ext, ext.stringfyContent(EntryMessages(e), e.lang), e.lang);
      && |r| == 2 + |tag| + 1 + |body| + 7
      && r[..2] == "\n\n" && r[2..2 + |tag|] == tag
      && r[2 + |tag|..|r| - 7] == "\n" + body && r[|r| - 7..] == "</i18n>"
  {
    var tag := OpenTag(ext, e);
    var body := Format(ext, ext.stringfyContent(EntryMessages(e), e.lang), e.lang);
    var r := "\n\n" + tag + "\n" + body + "</i18n>";
    assert r[..2] == "\n\n";
    assert r[2..2 + |tag|] == tag;
  }

  /** The attributes a new tag is meant to carry: `locale` when one is set, `lang` unless it is `json`. */
  function IntendedAttributes(ext: Externals, e: MetaEntry): seq<Attribute>
  {
    (if e.locale.Some? && e.locale.value != "" then [Attribute("locale", ext.escape(e.locale.value))] else [])
    + (if e.lang != "json" then [Attribute("lang", ext.escape(e.lang))] else [])
  }

  /** The opening tag is `<i18n`, the intended attributes rendered in order, and `>`. */
  lemma OpenTagRenders(ext: Externals, e: MetaEntry)
    ensures OpenTag(ext, e) == "<i18n" + Render(IntendedAttributes(ext, e)) + ">"
  {
    var hasLocale := e.locale.Some? && e.locale.value != "";
    var hasLang := e.lang != "json";
    var locale := if hasLocale then [Attribute("locale", ext.escape(e.locale.value))] else [];
    var lang := if hasLang then [Attribute("lang", ext.escape(e.lang))] else [];
    var localePart := if hasLocale then " locale=\"" + ext.escape(e.locale.value) + "\"" else "";
    var langPart := if hasLang then " lang=\"" + ext.escape(e.lang) + "\"" else "";
    RenderAppend(locale, lang);
    if hasLocale {
      RenderOne("locale", ext.escape(e.locale.value));
      assert " " + "locale" + "=\"" == " locale=\"";
    }
    if hasLang {
      RenderOne("lang", ext.escape(e.lang));
      assert " " + "lang" + "=\"" == " lang=\"";
    }
    assert Render(locale) == localePart;
    assert Render(lang) == langPart;
  }

  /** A new tag is meant to carry `locale` exactly when a locale is set, `lang` exactly when it is not `json`. */
  lemma IntendedAttributesPresent(ext: Externals, e: MetaEntry)
    ensures Lookup(IntendedAttributes(ext, e), "locale").Some? <==> e.locale.Some? && e.locale.value != ""
    ensures Lookup(IntendedAttributes(ext, e), "lang").Some? <==> e.lang != "json"
  {
    assert "locale" != "lang";
  }

  /**
   * Read back, the opening tag of a new block carries exactly the intended
   * attributes, given an escaper that never writes a double quote.
   */
  lemma OpenTagAttributes(ext: Externals, e: MetaEntry)
    requires forall s :: '"' !in ext.escape(s)
    ensures var tag := OpenTag(ext, e);
      && |tag| >= 6 && tag[..5] == "<i18n" && tag[|tag| - 1] == '>'
      && Parse(tag[5..|tag| - 1]) == Some(IntendedAttributes(ext, e))
  {
    var attrs := IntendedAttributes(ext, e);
    var tag := OpenTag(ext, e);
    OpenTagRenders(ext, e);
    assert tag[5..|tag| - 1] == Render(attrs);
    ParseRender(attrs);
  }

  // ---------------------------------------------------------------------
  // getBlocks
  // ---------------------------------------------------------------------

  /** The blocks in the order `getBlocks` gathers them: styles, custom blocks, template, script. */
  function Collected(d: Descriptor): seq<Block>
  {
    d.styles + d.customBlocks
    + (if d.template.Some? then [d.template.value] else [])
    + (if d.script.Some? then [d.script.value] else [])
  }

  predicate SortedByStart(s: seq<Block>)
  {
    forall i, j :: 0 <= i < j < |s| ==> s[i].start <= s[j].start
  }

  predicate StrictlySortedByStart(s: seq<Block>)
  {
    forall i, j :: 0 <= i < j < |s| ==> s[i].start < s[j].start
  }

  /** Exchanges two neighbouring blocks. */
  method SwapDown(a: array<Block>, j: int)
    requires 0 < j < a.Length
    modifies a
    ensures a[j - 1] == old(a[j]) && a[j] == old(a[j - 1])
    ensures forall k :: 0 <= k < a.Length && k != j - 1 && k != j ==> a[k] == old(a[k])
    ensures multiset(a[..]) == old(multiset(a[..]))
  {
    a[j - 1], a[j] := a[j], a[j - 1];
  }

  /** Moves `a[i]` down past the blocks of the sorted prefix `a[..i]` that start after it. */
  method InsertDown(a: array<Block>, i: int)
    requires 0 <= i < a.Length
    requires forall k, l :: 0 <= k < l < i ==> a[k].start <= a[l].start
    modifies a
    ensures forall k, l :: 0 <= k < l <= i ==> a[k].start <= a[l].start
    ensures multiset(a[..]) == old(multiset(a[..]))
  {
    var j := i;
    while j > 0 && a[j - 1].start > a[j].start
      invariant 0 <= j <= i
      invariant forall k, l :: 0 <= k < l <= i && k != j && l != j ==> a[k].start <= a[l].start
      invariant forall l :: j < l <= i ==> a[j].start < a[l].start
      invariant multiset(a[..]) == old(multiset(a[..]))
    {
      SwapDown(a, j);
      j := j - 1;
    }
  }

  /** Sorts the array by `start` in place (the `blocks.sort(...)` call), by insertion. */
  method SortByStartInPlace(a: array<Block>)
    modifies a
    ensures SortedByStart(a[..])
    ensures multiset(a[..]) == old(multiset(a[..]))
  {
    var i := 0;
    while i < a.Length
      invariant 0 <= i <= a.Length
      invariant forall k, l :: 0 <= k < l < i ==> a[k].start <= a[l].start
      invariant multiset(a[..]) == old(multiset(a[..]))
    {
      InsertDown(a, i);
      i := i + 1;
    }
  }

  /** `getBlocks`: every block of the file, sorted by `start`. */
  method GetBlocks(d: Descriptor) returns (blocks: seq<Block>)
    ensures SortedByStart(blocks)
    ensures multiset(blocks) == multiset(Collected(d))
  {
    var collected := d.styles + d.customBlocks;
    if d.template.Some? {
      collected := collected + [d.template.value];
    }
    if d.script.Some? {
      collected := collected + [d.script.value];
    }
    var a := new Block[|collected|](i requires 0 <= i < |collected| => collected[i]);
    assert a[..] == Collected(d);
    SortByStartInPlace(a);
    blocks := a[..];
  }

  /** Inserts `b` before the first block of `s` that does not start earlier than it. */
  function InsertByStart(b: Block, s: seq<Block>): seq<Block>
  {
    if s == [] || b.start <= s[0].start then [b] + s
    else [s[0]] + InsertByStart(b, s[1..])
  }

  /** The blocks sorted by start, stably: a reference for what `getBlocks` returns. */
  function SortByStart(s: seq<Block>): seq<Block>
  {
    if s == [] then [] else InsertByStart(s[0], SortByStart(s[1..]))
  }

  /** Inserting adds exactly `b`, and one i18n block when `b` is one. */
  lemma {:induction false} InsertByStartAdds(b: Block, s: seq<Block>)
    ensures multiset(InsertByStart(b, s)) == multiset(s) + multiset{b}
    ensures CountI18n(InsertByStart(b, s)) == CountI18n([b]) + CountI18n(s)
    decreases |s|
  {
    if s != [] && b.start > s[0].start {
      assert s == [s[0]] + s[1..];
      InsertByStartAdds(b, s[1..]);
    }
  }

  /** Every block of `s` starts at `lo` or later. */
  predicate StartsFrom(lo: nat, s: seq<Block>)
  {
    forall k :: 0 <= k < |s| ==> lo <= s[k].start
  }

  /** Inserting a block that starts at `lo` or later keeps that bound. */
  lemma {:induction false} InsertByStartFrom(lo: nat, b: Block, s: seq<Block>)
    requires lo <= b.start && StartsFrom(lo, s)
    ensures StartsFrom(lo, InsertByStart(b, s))
    decreases |s|
  {
    if s != [] && b.start > s[0].start {
      InsertByStartFrom(lo, b, s[1..]);
      var r' := InsertByStart(b, s[1..]);
      assert forall k :: 0 < k <= |r'| ==> ([s[0]] + r')[k] == r'[k - 1];
    }
  }

  /** A block put before a sorted list it does not start after gives a sorted list. */
  lemma SortedCons(x: Block, s: seq<Block>)
    requires SortedByStart(s) && StartsFrom(x.start, s)
    ensures SortedByStart([x] + s)
  {
    var r := [x] + s;
    forall i, j | 0 <= i < j < |r|
      ensures r[i].start <= r[j].start
    {
      assert r[j] == s[j - 1];
      if i > 0 {
        assert r[i] == s[i - 1];
      }
    }
  }

  /** Inserting into a sorted list keeps it sorted. */
  lemma {:induction false} InsertByStartSorted(b: Block, s: seq<Block>)
    requires SortedByStart(s)
    ensures SortedByStart(InsertByStart(b, s))
    decreases |s|
  {
    if s == [] || b.start <= s[0].start {
      assert StartsFrom(b.start, s) by {
        forall k | 0 <= k < |s|
          ensures b.start <= s[k].start
        {
          if k > 0 {
            assert s[0].start <= s[k].start;
          }
        }
      }
      SortedCons(b, s);
    } else {
      var t := s[1..];
      assert SortedByStart(t) by {
        forall i, j | 0 <= i < j < |t|
          ensures t[i].start <= t[j].start
        {
          assert t[i] == s[i + 1] && t[j] == s[j + 1];
        }
      }
      assert StartsFrom(s[0].start, t) by {
        forall k | 0 <= k < |t|
          ensures s[0].start <= t[k].start
        {
          assert t[k] == s[k + 1];
        }
      }
      InsertByStartSorted(b, t);
      InsertByStartFrom(s[0].start, b, t);
      SortedCons(s[0], InsertByStart(b, t));
    }
  }

  /** The reference sort is sorted, a permutation, and keeps the number of i18n blocks. */
  lemma {:induction false} SortByStartSorts(s: seq<Block>)
    ensures SortedByStart(SortByStart(s))
    ensures multiset(SortByStart(s)) == multiset(s)
    ensures CountI18n(SortByStart(s)) == CountI18n(s)
    decreases |s|
  {
    if s != [] {
      assert s == [s[0]] + s[1..];
      SortByStartSorts(s[1..]);
      InsertByStartSorted(s[0], SortByStart(s[1..]));
      InsertByStartAdds(s[0], SortByStart(s[1..]));
    }
  }

  /** Of two sorted permutations, one with distinct starts, the first blocks agree. */
  lemma SortedPermutationsHead(r: seq<Block>, s: seq<Block>)
    requires SortedByStart(r) && StrictlySortedByStart(s)
    requires multiset(r) == multiset(s) && r != []
    ensures s != [] && r[0] == s[0]
  {
    assert r[0] in multiset(s);
    var j :| 0 <= j < |s| && s[j] == r[0];
    assert s[0] in multiset(r);
    var k :| 0 <= k < |r| && r[k] == s[0];
  }

  /** A sorted permutation of a list whose starts are distinct is that list. */
  lemma {:induction false} SortedPermutationUnique(r: seq<Block>, s: seq<Block>)
    requires SortedByStart(r) && StrictlySortedByStart(s)
    requires multiset(r) == multiset(s)
    ensures r == s
    decreases |r|
  {
    if r == [] {
      assert |s| == |multiset(s)| == 0;
    } else {
      SortedPermutationsHead(r, s);
      var r', s' := r[1..], s[1..];
      assert SortedByStart(r') by {
        forall i, j | 0 <= i < j < |r'|
          ensures r'[i].start <= r'[j].start
        {
          assert r'[i] == r[i + 1] && r'[j] == r[j + 1];
        }
      }
      assert StrictlySortedByStart(s') by {
        forall i, j | 0 <= i < j < |s'|
          ensures s'[i].start < s'[j].start
        {
          assert s'[i] == s[i + 1] && s'[j] == s[j + 1];
        }
      }
      MultisetTail(r, s);
      SortedPermutationUnique(r', s');
      assert r == [r[0]] + r' && s == [s[0]] + s';
    }
  }

  // ---------------------------------------------------------------------
  // buildContent
  // ---------------------------------------------------------------------

  predicate IsI18n(b: Block)
  {
    b.kind == Custom("i18n")
  }

  function CountI18n(blocks: seq<Block>): nat
  {
    if blocks == [] then 0 else (if IsI18n(blocks[0]) then 1 else 0) + CountI18n(blocks[1..])
  }

  /** The i18n blocks of a prefix and of the rest add up to those of the whole. */
  lemma {:induction false} CountI18nSplit(s: seq<Block>, i: nat)
    requires i <= |s|
    ensures CountI18n(s[..i]) + CountI18n(s[i..]) == CountI18n(s)
    decreases i
  {
    if i > 0 {
      assert s[..i][1..] == s[1..][..i - 1];
      assert s[i..] == s[1..][i - 1..];
      CountI18nSplit(s[1..], i - 1);
    }
  }

  /** One more block passed adds one to the i18n blocks passed exactly when it is one. */
  lemma CountI18nPrefix(s: seq<Block>, i: nat)
    requires i < |s|
    ensures CountI18n(s[..i + 1]) == CountI18n(s[..i]) + (if IsI18n(s[i]) then 1 else 0)
  {
    CountI18nSplit(s, i);
    CountI18nSplit(s, i + 1);
    assert s[i..][1..] == s[i + 1..];
  }

  /**
   * What `buildContent` needs of the blocks: each lies inside `raw` and
   * ends no later than any later one starts.
   */
  predicate Ordered(raw: string, blocks: seq<Block>)
  {
    && (forall i :: 0 <= i < |blocks| ==> blocks[i].start <= blocks[i].end <= |raw|)
    && (forall i, j :: 0 <= i < j < |blocks| ==> blocks[i].end <= blocks[j].start)
  }

  /**
   * The replacements the i18n blocks stand for, in order: the k-th i18n
   * block's range becomes its serialization against the k-th entry.
   */
  function Edits(ext: Externals, entries: seq<MetaEntry>, blocks: seq<Block>): (r: seq<Edit>)
    requires CountI18n(blocks) <= |entries|
    ensures |r| == CountI18n(blocks)
  {
    if blocks == [] then []
    else if IsI18n(blocks[0]) then
      [Edit(blocks[0].start, blocks[0].end, Serialized(ext, blocks[0], entries[0]))]
      + Edits(ext, entries[1..], blocks[1..])
    else
      Edits(ext, entries, blocks[1..])
  }

  /** The replacements of ordered blocks fit into `raw` from any offset up to the first block. */
  lemma {:induction false} EditsFit(ext: Externals, entries: seq<MetaEntry>, raw: string, from: nat, blocks: seq<Block>)
    requires Ordered(raw, blocks) && CountI18n(blocks) <= |entries|
    requires from <= (if blocks == [] then |raw| else blocks[0].start)
    ensures Fits(raw, from, Edits(ext, entries, blocks))
    decreases |blocks|
  {
    if blocks != [] {
      var b := blocks[0];
      assert Ordered(raw, blocks[1..]);
      EditsFit(ext, if IsI18n(b) then entries[1..] else entries, raw, b.end, blocks[1..]);
    }
  }

  /** New `<i18n>` blocks for the entries, in order. */
  function Tags(ext: Externals, entries: seq<MetaEntry>): seq<string>
  {
    if entries == [] then []
    else Tags(ext, entries[..|entries| - 1]) + [BuildI18nTag(ext, entries[|entries| - 1])]
  }

  /** One tag per entry, the k-th built from the k-th entry. */
  lemma {:induction false} TagsOneEach(ext: Externals, entries: seq<MetaEntry>)
    ensures |Tags(ext, entries)| == |entries|
    ensures forall k :: 0 <= k < |entries| ==> Tags(ext, entries)[k] == BuildI18nTag(ext, entries[k])
    decreases |entries|
  {
    if entries != [] {
      var init := entries[..|entries| - 1];
      TagsOneEach(ext, init);
      assert forall k :: 0 <= k < |init| ==> init[k] == entries[k];
    }
  }

  /**
   * The rebuilt file: `raw` with the range of every i18n block replaced by
   * its serialization, followed by a new tag for each entry left over;
   * meant for blocks that are `Ordered` in `raw`.
   */
  function Rebuilt(ext: Externals, entries: seq<MetaEntry>, raw: string, blocks: seq<Block>): string
    requires CountI18n(blocks) <= |entries|
  {
    Splice(raw, 0, Edits(ext, entries, blocks)) + Join(Tags(ext, entries[CountI18n(blocks)..]))
  }

  /**
   * Walking past a block that is not i18n copies `raw` up to its end and
   * leaves the replacements still to come as they were.
   */
  lemma {:induction false} WalkPastOther(ext: Externals, entries: seq<MetaEntry>, raw: string, offset: nat, blocks: seq<Block>, idx: nat)
    requires Ordered(raw, blocks) && idx < |blocks| && !IsI18n(blocks[idx])
    requires CountI18n(blocks[idx..]) <= |entries|
    requires offset <= blocks[idx].start
    ensures CountI18n(blocks[idx + 1..]) == CountI18n(blocks[idx..])
    ensures Splice(raw, offset, Edits(ext, entries, blocks[idx..]))
         == raw[offset..blocks[idx].end] + Splice(raw, blocks[idx].end, Edits(ext, entries, blocks[idx + 1..]))
  {
    var block := blocks[idx];
    assert blocks[idx..][0] == block && blocks[idx..][1..] == blocks[idx + 1..];
    var rest := Edits(ext, entries, blocks[idx + 1..]);
    assert Edits(ext, entries, blocks[idx..]) == rest;
    assert Ordered(raw, blocks[idx + 1..]);
    EditsFit(ext, entries, raw, block.end, blocks[idx + 1..]);
    SpliceSkip(raw, offset, block.end, rest);
  }

  /**
   * Walking past an i18n block copies `raw` up to its start, then its
   * serialization against the next entry, and moves on to the next entry.
   */
  lemma {:induction false} WalkPastI18n(ext: Externals, entries: seq<MetaEntry>, raw: string, offset: nat, blocks: seq<Block>, idx: nat)
    requires Ordered(raw, blocks) && idx < |blocks| && IsI18n(blocks[idx])
    requires CountI18n(blocks[idx..]) <= |entries|
    requires offset <= blocks[idx].start
    ensures CountI18n(blocks[idx + 1..]) + 1 == CountI18n(blocks[idx..])
    ensures Splice(raw, offset, Edits(ext, entries, blocks[idx..]))
         == raw[offset..blocks[idx].start] + Serialized(ext, blocks[idx], entries[0])
            + Splice(raw, blocks[idx].end, Edits(ext, entries[1..], blocks[idx + 1..]))
  {
    var block := blocks[idx];
    assert blocks[idx..][0] == block && blocks[idx..][1..] == blocks[idx + 1..];
    var rest := Edits(ext, entries[1..], blocks[idx + 1..]);
    var e := Edit(block.start, block.end, Serialized(ext, block, entries[0]));
    assert Edits(ext, entries, blocks[idx..]) == [e] + rest;
    assert ([e] + rest)[1..] == rest;
    assert Slice(raw, offset, block.start) == raw[offset..block.start];
  }

  /**
   * One step of the walk over an i18n block: the pieces pushed so far,
   * followed by what is still to be spliced, stay the whole spliced file.
   */
  lemma StepI18n(ext: Externals, entries: seq<MetaEntry>, raw: string, blocks: seq<Block>, idx: nat,
                 counter: nat, offset: nat, contents: seq<string>, spliced: string)
    requires Ordered(raw, blocks) && idx < |blocks| && IsI18n(blocks[idx])
    requires counter + CountI18n(blocks[idx..]) <= |entries|
    requires offset <= blocks[idx].start
    requires Join(contents) + Splice(raw, offset, Edits(ext, entries[counter..], blocks[idx..])) == spliced
    ensures counter + 1 + CountI18n(blocks[idx + 1..]) == counter + CountI18n(blocks[idx..])
    ensures CountI18n(blocks[..idx + 1]) == CountI18n(blocks[..idx]) + 1
    ensures Join(contents + [raw[offset..blocks[idx].start], Serialized(ext, blocks[idx], entries[counter])])
            + Splice(raw, blocks[idx].end, Edits(ext, entries[counter + 1..], blocks[idx + 1..])) == spliced
  {
    WalkPastI18n(ext, entries[counter..], raw, offset, blocks, idx);
    CountI18nPrefix(blocks, idx);
    assert entries[counter..][0] == entries[counter];
    assert entries[counter..][1..] == entries[counter + 1..];
    JoinAdvanceTwo(contents, raw[offset..blocks[idx].start], Serialized(ext, blocks[idx], entries[counter]),
                   Splice(raw, blocks[idx].end, Edits(ext, entries[counter + 1..], blocks[idx + 1..])), spliced);
  }

  /** One step of the walk over any other block: its text up to its end is pushed unchanged. */
  lemma StepOther(ext: Externals, entries: seq<MetaEntry>, raw: string, blocks: seq<Block>, idx: nat,
                  counter: nat, offset: nat, contents: seq<string>, spliced: string)
    requires Ordered(raw, blocks) && idx < |blocks| && !IsI18n(blocks[idx])
    requires counter + CountI18n(blocks[idx..]) <= |entries|
    requires offset <= blocks[idx].start
    requires Join(contents) + Splice(raw, offset, Edits(ext, entries[counter..], blocks[idx..])) == spliced
    ensures CountI18n(blocks[idx + 1..]) == CountI18n(blocks[idx..])
    ensures CountI18n(blocks[..idx + 1]) == CountI18n(blocks[..idx])
    ensures Join(contents + [raw[offset..blocks[idx].end]])
            + Splice(raw, blocks[idx].end, Edits(ext, entries[counter..], blocks[idx + 1..])) == spliced
  {
    WalkPastOther(ext, entries[counter..], raw, offset, blocks, idx);
    CountI18nPrefix(blocks, idx);
    JoinAdvance(contents, raw[offset..blocks[idx].end],
                Splice(raw, blocks[idx].end, Edits(ext, entries[counter..], blocks[idx + 1..])), spliced);
  }

  /** Past the last block: the tail of `raw` completes the splice, and every i18n block has been used. */
  lemma WalkDone(ext: Externals, entries: seq<MetaEntry>, raw: string, blocks: seq<Block>,
                 counter: nat, offset: nat, contents: seq<string>, spliced: string)
    requires counter + CountI18n(blocks[|blocks|..]) == CountI18n(blocks) <= |entries|
    requires offset <= |raw|
    requires Join(contents) + Splice(raw, offset, Edits(ext, entries[counter..], blocks[|blocks|..])) == spliced
    ensures counter == CountI18n(blocks)
    ensures Join(contents + [raw[offset..]]) == spliced
  {
    assert blocks[|blocks|..] == [];
    JoinSnoc(contents, raw[offset..]);
  }

  /** No entries left over, no tags. */
  lemma NoTags(ext: Externals, entries: seq<MetaEntry>)
    requires entries == []
    ensures Join(Tags(ext, entries)) == ""
  {
  }

  /** One step of the loop over the entries left over: one more tag pushed. */
  lemma StepTag(ext: Externals, entries: seq<MetaEntry>, j: nat, contents: seq<string>, before: string)
    requires j < |entries|
    requires Join(contents) == before + Join(Tags(ext, entries[..j]))
    ensures Join(contents + [BuildI18nTag(ext, entries[j])]) == before + Join(Tags(ext, entries[..j + 1]))
  {
    assert entries[..j + 1][..j] == entries[..j];
    JoinPush(contents, before, Tags(ext, entries[..j]), BuildI18nTag(ext, entries[j]));
  }

  /** The `reduce` over the entries no block used: pushes a new tag for each, in order. */
  method PushTags(ext: Externals, entries: seq<MetaEntry>, contents: seq<string>) returns (pushed: seq<string>)
    ensures Join(pushed) == Join(contents) + Join(Tags(ext, entries))
  {
    pushed := contents;
    var j := 0;
    assert Tags(ext, entries[..0]) == [];
    while j < |entries|
      invariant j <= |entries|
      invariant Join(pushed) == Join(contents) + Join(Tags(ext, entries[..j]))
    {
      StepTag(ext, entries, j, pushed, Join(contents));
      pushed := pushed + [BuildI18nTag(ext, entries[j])];
      j := j + 1;
    }
    assert entries[..j] == entries;
  }

  /**
   * The state of `buildContent` after the first `idx` blocks: the cursor
   * stands at the end of the last block passed, the counter at the number
   * of i18n blocks passed, and the pieces pushed so far, followed by what
   * is still to be spliced from the cursor on, make up `spliced`.
   */
  predicate Walked(ext: Externals, entries: seq<MetaEntry>, raw: string, blocks: seq<Block>, spliced: string,
                   idx: nat, contents: seq<string>, offset: nat, counter: nat)
  {
    && idx <= |blocks|
    && counter + CountI18n(blocks[idx..]) == CountI18n(blocks) <= |entries|
    && counter == CountI18n(blocks[..idx])
    && offset == (if idx == 0 then 0 else blocks[idx - 1].end)
    && offset <= (if idx < |blocks| then blocks[idx].start else |raw|)
    && Join(contents) + Splice(raw, offset, Edits(ext, entries[counter..], blocks[idx..])) == spliced
  }

  /**
   * The callback of the `reduce` over the blocks: an i18n block pushes the
   * text before it and its serialization against the `counter`-th entry,
   * any other block pushes the text up to its end; the cursor moves to
   * the block's end.
   */
  method Visit(ext: Externals, entries: seq<MetaEntry>, raw: string, blocks: seq<Block>, ghost spliced: string,
               idx: nat, contents: seq<string>, offset: nat, counter: nat)
    returns (contents': seq<string>, offset': nat, counter': nat)
    requires Ordered(raw, blocks) && idx < |blocks|
    requires Walked(ext, entries, raw, blocks, spliced, idx, contents, offset, counter)
    ensures Walked(ext, entries, raw, blocks, spliced, idx + 1, contents', offset', counter')
    ensures offset' == blocks[idx].end
    ensures counter' == counter + (if IsI18n(blocks[idx]) then 1 else 0)
  {
    var block := blocks[idx];
    if IsI18n(block) {
      StepI18n(ext, entries, raw, blocks, idx, counter, offset, contents, spliced);
      contents' := contents + [raw[offset..block.start], Serialized(ext, block, entries[counter])];
      counter' := counter + 1;
    } else {
      StepOther(ext, entries, raw, blocks, idx, counter, offset, contents, spliced);
      contents' := contents + [raw[offset..block.end]];
      counter' := counter;
    }
    offset' := block.end;
  }

  /**
   * The `reduce` over the sorted blocks in `buildContent`: it ends with the
   * cursor at the end of the last block and the counter at the number of
   * i18n blocks, and the tail of `raw` then completes the splice.
   */
  method WalkBlocks(ext: Externals, i18nBlocks: seq<MetaEntry>, raw: string, blocks: seq<Block>)
    returns (contents: seq<string>, offset: nat, i18nBlockCounter: nat)
    requires Ordered(raw, blocks)
    requires CountI18n(blocks) <= |i18nBlocks|
    ensures i18nBlockCounter == CountI18n(blocks)
    ensures offset == if blocks == [] then 0 else blocks[|blocks| - 1].end
    ensures offset <= |raw|
    ensures Join(contents + [raw[offset..]]) == Splice(raw, 0, Edits(ext, i18nBlocks, blocks))
  {
    offset := 0;
    i18nBlockCounter := 0;
    contents := [];
    ghost var spliced := Splice(raw, 0, Edits(ext, i18nBlocks, blocks));
    assert i18nBlocks[0..] == i18nBlocks && blocks[0..] == blocks && blocks[..0] == [];
    var idx := 0;
    while idx < |blocks|
      invariant Walked(ext, i18nBlocks, raw, blocks, spliced, idx, contents, offset, i18nBlockCounter)
    {
      contents, offset, i18nBlockCounter := Visit(ext, i18nBlocks, raw, blocks, spliced, idx, contents, offset, i18nBlockCounter);
      idx := idx + 1;
    }
    WalkDone(ext, i18nBlocks, raw, blocks, i18nBlockCounter, offset, contents, spliced);
  }

  /**
   * `buildContent`: walks the sorted blocks with a cursor into `raw` and a
   * counter into the entries, then appends the tail of `raw` and a tag for
   * each entry no block used.
   */
  method BuildContent(ext: Externals, i18nBlocks: seq<MetaEntry>, raw: string, blocks: seq<Block>)
    returns (content: string)
    requires Ordered(raw, blocks)
    requires CountI18n(blocks) <= |i18nBlocks|
    ensures content == Rebuilt(ext, i18nBlocks, raw, blocks)
  {
    var contents, offset, i18nBlockCounter := WalkBlocks(ext, i18nBlocks, raw, blocks);
    contents := contents + [raw[offset..]];

    if |i18nBlocks| > i18nBlockCounter {
      contents := PushTags(ext, i18nBlocks[i18nBlockCounter..], contents);
    } else {
      NoTags(ext, i18nBlocks[i18nBlockCounter..]);
    }
    content := Join(contents);
  }

  // ---------------------------------------------------------------------
  // Properties of the rebuild
  // ---------------------------------------------------------------------

  /** Without i18n blocks and without entries the file comes back unchanged. */
  lemma NoI18nIsIdentity(ext: Externals, raw: string, blocks: seq<Block>)
    requires Ordered(raw, blocks) && CountI18n(blocks) == 0
    ensures Rebuilt(ext, [], raw, blocks) == raw
  {
    assert Tags(ext, []) == [];
  }

  /** Without i18n blocks the file comes back unchanged, followed by one new tag per entry. */
  lemma NoI18nAppendsEveryEntry(ext: Externals, entries: seq<MetaEntry>, raw: string, blocks: seq<Block>)
    requires Ordered(raw, blocks) && CountI18n(blocks) == 0
    ensures Rebuilt(ext, entries, raw, blocks) == raw + Join(Tags(ext, entries))
  {
    assert entries[0..] == entries;
  }

  /**
   * The rebuild looks at `raw` only outside the replaced ranges: two files
   * that differ only inside them are rebuilt alike.
   */
  lemma RebuiltIgnoresReplacedRanges(ext: Externals, entries: seq<MetaEntry>, raw: string, raw': string, blocks: seq<Block>)
    requires Ordered(raw, blocks) && CountI18n(blocks) <= |entries| && |raw'| == |raw|
    requires forall p :: 0 <= p < |raw| && Outside(Edits(ext, entries, blocks), p) ==> raw[p] == raw'[p]
    ensures Ordered(raw', blocks)
    ensures Rebuilt(ext, entries, raw, blocks) == Rebuilt(ext, entries, raw', blocks)
  {
    EditsFit(ext, entries, raw, 0, blocks);
    SpliceIgnoresEditedRanges(raw, raw', 0, Edits(ext, entries, blocks));
  }

  /**
   * Everything outside the replaced ranges is copied: if each i18n block's
   * serialization were its old text, the file would come back unchanged
   * (followed by the new tags).
   */
  lemma RebuiltKeepsOutside(ext: Externals, entries: seq<MetaEntry>, raw: string, blocks: seq<Block>)
    requires Ordered(raw, blocks) && CountI18n(blocks) <= |entries|
    requires forall k :: 0 <= k < CountI18n(blocks) ==> Restores(raw, Edits(ext, entries, blocks)[k])
    ensures Rebuilt(ext, entries, raw, blocks) == raw + Join(Tags(ext, entries[CountI18n(blocks)..]))
  {
    EditsFit(ext, entries, raw, 0, blocks);
    AllRestoreEach(raw, Edits(ext, entries, blocks));
    SpliceRestoring(raw, 0, Edits(ext, entries, blocks));
  }

  // ---------------------------------------------------------------------
  // generate and infuse
  // ---------------------------------------------------------------------

  /** The blocks of a file in start order, as `getBlocks` returns them when their starts differ. */
  function Arranged(d: Descriptor): seq<Block>
  {
    SortByStart(Collected(d))
  }

  /** The meta data has entries for the file, at least one for every i18n block. */
  predicate HasEntries(meta: Meta, d: Descriptor)
  {
    && d.contentPath in meta.components
    && CountI18n(Arranged(d)) <= |meta.components[d.contentPath]|
  }

  /**
   * What `generate` needs of a file: it has its entries, and its blocks in
   * start order have distinct starts, lie inside `raw` and do not overlap.
   */
  predicate Ready(meta: Meta, d: Descriptor)
  {
    && HasEntries(meta, d)
    && StrictlySortedByStart(Arranged(d))
    && Ordered(d.raw, Arranged(d))
  }

  /** The content `generate` produces for a file. */
  function Generated(ext: Externals, meta: Meta, d: Descriptor): string
    requires HasEntries(meta, d)
  {
    Rebuilt(ext, meta.components[d.contentPath], d.raw, Arranged(d))
  }

  /** `generate`: rebuilds one file from its entries; the final `vue` format passes it through. */
  method Generate(ext: Externals, meta: Meta, descriptor: Descriptor) returns (content: string)
    requires Ready(meta, descriptor)
    ensures content == Generated(ext, meta, descriptor)
  {
    var i18nBlocks := meta.components[descriptor.contentPath];
    var blocks := GetBlocks(descriptor);
    SortByStartSorts(Collected(descriptor));
    SortedPermutationUnique(blocks, Arranged(descriptor));
    var raw := descriptor.raw;
    var built := BuildContent(ext, i18nBlocks, raw, blocks);
    content := Format(ext, built, "vue");
  }

  /** The file `infuse` yields for a descriptor: the generated content, at the descriptor's content path. */
  function Infused(ext: Externals, meta: Meta, d: Descriptor): FileInfo
    requires HasEntries(meta, d)
  {
    FileInfo(Generated(ext, meta, d), d.contentPath)
  }

  /** The callback `infuse` maps over the descriptors: one file, generated. */
  method InfuseFile(ext: Externals, meta: Meta, d: Descriptor) returns (file: FileInfo)
    requires Ready(meta, d)
    ensures file == Infused(ext, meta, d)
  {
    var content := Generate(ext, meta, d);
    file := FileInfo(content, d.contentPath);
  }

  /** `descriptors.map(...)`: the file for each descriptor, in order. */
  function InfusedAll(ext: Externals, meta: Meta, ds: seq<Descriptor>): (r: seq<FileInfo>)
    requires forall i :: 0 <= i < |ds| ==> HasEntries(meta, ds[i])
    ensures |r| == |ds| && forall i :: 0 <= i < |ds| ==> r[i] == Infused(ext, meta, ds[i])
  {
    seq(|ds|, i requires 0 <= i < |ds| => Infused(ext, meta, ds[i]))
  }

  /** `infuse`: every file the descriptor reader yields, rebuilt, paired with its path, in order. */
  method Infuse(ext: Externals, basePath: string, sources: seq<FileInfo>, meta: Meta) returns (files: seq<FileInfo>)
    requires var descriptors := ext.reflectSFCDescriptor(basePath, sources);
      forall i :: 0 <= i < |descriptors| ==> Ready(meta, descriptors[i])
    ensures files == InfusedAll(ext, meta, ext.reflectSFCDescriptor(basePath, sources))
  {
    var descriptors := ext.reflectSFCDescriptor(basePath, sources);
    ghost var want := InfusedAll(ext, meta, descriptors);
    files := [];
    var i := 0;
    while i < |descriptors|
      invariant 0 <= i <= |descriptors|
      invariant files == want[..i]
    {
      var file := InfuseFile(ext, meta, descriptors[i]);
      PushPrefix(files, want, file);
      files := files + [file];
      i := i + 1;
    }
    PrefixWhole(want);
  }
}
