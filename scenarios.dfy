/**
 * Two worked rebuilds: a file whose one i18n block matches its entry, and
 * a file without i18n blocks that gains a new block for each of two entries.
 */
module InfuserScenarios {
  import opened Optional
  import opened Splicing
  import opened Attributes
  import opened Infuser
  import opened Sequences

  /** `<template>X</template><i18n locale="en">{"a":"b"}</i18n>` */
  const ScenarioRaw: string := "<template>X</template><i18n locale=\"en\">{\"a\":\"b\"}</i18n>"

  /** The template block: its content `X` lies at `[10, 11)`. */
  const TemplateBlock: Block := Block(Template, 10, 11, None, None, "X")

  /** The i18n block: `locale="en"`, no `lang`, its content `{"a":"b"}` at `[40, 49)`. */
  const MessageBlock: Block := Block(Custom("i18n"), 40, 49, None, Some(Text("en")), "{\"a\":\"b\"}")

  /** The meta entry for the file: json, locale `en`, messages `{en: {a: "b2"}}`. */
  const EnEntry: MetaEntry := MetaEntry("json", Some("en"), Tree(map["en" := Tree(map["a" := Leaf("b2")])]))

  /**
   * The block matches its entry, so its range becomes the entry's `en`
   * messages as prettier prints them with the json-stringify parser; the
   * text before and after it is kept.
   */
  lemma MatchingBlockIsReplaced(ext: Externals)
    ensures |ScenarioRaw| == 56
    ensures Ordered(ScenarioRaw, [TemplateBlock, MessageBlock]) && CountI18n([TemplateBlock, MessageBlock]) == 1
    ensures Rebuilt(ext, [EnEntry], ScenarioRaw, [TemplateBlock, MessageBlock])
         == ScenarioRaw[..40]
            + "\n" + ext.prettierFormat(ext.stringfyContent(Tree(map["a" := Leaf("b2")]), "json"), PrettierOptions(JsonStringify, 2))
            + ScenarioRaw[49..]
  {
    var blocks := [TemplateBlock, MessageBlock];
    assert blocks[1..] == [MessageBlock] && blocks[1..][1..] == [];
    assert CountI18n([MessageBlock]) == 1 by {
      assert [MessageBlock][1..] == [];
    }
    assert CountI18n(blocks) == 1;
    var messages := Tree(map["a" := Leaf("b2")]);
    assert EffectiveLang(MessageBlock.lang) == "json";
    assert SameLocale(MessageBlock.locale, EnEntry.locale);
    assert Resolve(ext, MessageBlock, EnEntry) == messages;
    assert ParserFor("json") == Some(JsonStringify) by {
      assert "json" != "vue" && "json" != "yaml" && "json" != "yml" && "json" != "json5";
    }
    var text := "\n" + ext.prettierFormat(ext.stringfyContent(messages, "json"), PrettierOptions(JsonStringify, 2));
    assert Serialized(ext, MessageBlock, EnEntry) == text;
    assert Edits(ext, [EnEntry], blocks) == [Edit(40, 49, text)];
    assert Splice(ScenarioRaw, 0, [Edit(40, 49, text)]) == ScenarioRaw[..40] + text + ScenarioRaw[49..];
    assert [EnEntry][1..] == [];
    assert Join(Tags(ext, [])) == "";
  }

  /**
   * Without i18n blocks the file is kept and gains one block per entry, in
   * order: the first without a `locale` attribute, the second with `locale`.
   */
  lemma EntriesAreAppended(ext: Externals, raw: string, blocks: seq<Block>, first: MetaEntry, second: MetaEntry)
    requires Ordered(raw, blocks) && CountI18n(blocks) == 0
    requires first.locale == None && second.locale == Some("fr")
    ensures Rebuilt(ext, [first, second], raw, blocks) == raw + BuildI18nTag(ext, first) + BuildI18nTag(ext, second)
    ensures Lookup(IntendedAttributes(ext, first), "locale") == None
    ensures Lookup(IntendedAttributes(ext, second), "locale") == Some(ext.escape("fr"))
  {
    var entries := [first, second];
    var a, b := BuildI18nTag(ext, first), BuildI18nTag(ext, second);
    NoI18nAppendsEveryEntry(ext, entries, raw, blocks);
    assert entries[..1] == [first] && [first][..0] == [];
    assert Tags(ext, [first]) == [a];
    assert Tags(ext, entries) == [a, b];
    assert [a, b][..1] == [a] && [a][..0] == [];
    assert Join([a]) == a;
    assert Join([a, b]) == a + b;
    AppendAssoc(raw, a, b);
    assert "locale" != "lang";
  }
}
