/**
 * Attributes of an opening tag, written ` name="value"` one after the
 * other, and a reader that takes such a list back apart.
 */
module Attributes {
  import opened Optional
  import opened Sequences

  datatype Attribute = Attribute(name: string, value: string)

  /** The attributes as an opening tag carries them: ` name="value"` each, in order. */
  function Render(attrs: seq<Attribute>): string
  {
    if attrs == [] then "" else " " + attrs[0].name + "=\"" + attrs[0].value + "\"" + Render(attrs[1..])
  }

  /** Rendering a concatenation renders each part in turn. */
  lemma {:induction false} RenderAppend(p: seq<Attribute>, q: seq<Attribute>)
    ensures Render(p + q) == Render(p) + Render(q)
    decreases |p|
  {
    if p != [] {
      var a := p[0];
      var head := " " + a.name + "=\"" + a.value + "\"";
      assert (p + q)[0] == a && (p + q)[1..] == p[1..] + q;
      RenderAppend(p[1..], q);
      AppendAssoc(head, Render(p[1..]), Render(q));
    } else {
      assert p + q == q;
    }
  }

  /** A single attribute renders as ` name="value"`. */
  lemma RenderOne(name: string, value: string)
    ensures Render([Attribute(name, value)]) == " " + name + "=\"" + value + "\""
  {
    assert [Attribute(name, value)][1..] == [];
  }

  /** The position of the first `c` in `s`, or `|s|` when `s` has none. */
  function Find(s: string, c: char): (k: nat)
    ensures k <= |s|
    ensures k < |s| ==> s[k] == c
  {
    if s == [] then 0
    else if s[0] == c then 0
    else 1 + Find(s[1..], c)
  }

  /**
   * Reads the ` name="value"` at the front of `s`: the attribute and the
   * length of text it took, or `None` when `s` does not start with one.
   */
  function ReadOne(s: string): (r: Option<(Attribute, nat)>)
    ensures r.Some? ==> 0 < r.value.1 <= |s|
  {
    if s == [] || s[0] != ' ' then None
    else
      var afterSpace := s[1..];
      var n := Find(afterSpace, '=');
      if n + 1 >= |afterSpace| || afterSpace[n + 1] != '"' then None
      else
        var afterQuote := afterSpace[n + 2..];
        var v := Find(afterQuote, '"');
        if v == |afterQuote| then None
        else Some((Attribute(afterSpace[..n], afterQuote[..v]), n + v + 4))
  }

  /** Reads back a list of ` name="value"` attributes; `None` when `s` is not one. */
  function Parse(s: string): Option<seq<Attribute>>
    decreases |s|
  {
    if s == [] then Some([])
    else
      match ReadOne(s)
      case None => None
      case Some((a, used)) =>
        match Parse(s[used..])
        case None => None
        case Some(more) => Some([a] + more)
  }

  /** An attribute that reads back unambiguously: no `=` in its name, no `"` in its value. */
  predicate Plain(a: Attribute)
  {
    '=' !in a.name && '"' !in a.value
  }

  /** The value of the first attribute called `name`. */
  function Lookup(attrs: seq<Attribute>, name: string): Option<string>
  {
    if attrs == [] then None
    else if attrs[0].name == name then Some(attrs[0].value)
    else Lookup(attrs[1..], name)
  }

  /** A `c` right after a `c`-free prefix is the first `c`. */
  lemma {:induction false} FindAt(p: string, c: char, q: string)
    requires c !in p && q != [] && q[0] == c
    ensures Find(p + q, c) == |p|
    decreases |p|
  {
    if p == [] {
      assert p + q == q;
    } else {
      assert (p + q)[0] == p[0] && (p + q)[1..] == p[1..] + q;
      FindAt(p[1..], c, q);
    }
  }

  /**
   * A rendered attribute, written left to right, is the space followed by
   * the name, the `="`, the value and the closing quote, each before the rest.
   */
  lemma Nest(name: string, value: string, t: string)
    ensures " " + name + "=\"" + value + "\"" + t == " " + (name + ("=\"" + (value + ("\"" + t))))
  {
    AppendAssoc(" " + name + "=\"" + value, "\"", t);
    AppendAssoc(" " + name + "=\"", value, "\"" + t);
    AppendAssoc(" " + name, "=\"", value + ("\"" + t));
    AppendAssoc(" ", name, "=\"" + (value + ("\"" + t)));
  }

  /** `ReadOne` succeeds on a text whose separators lie where a rendered attribute puts them. */
  lemma ReadOneAt(s: string, name: string, value: string)
    requires s != [] && s[0] == ' '
    requires |s| >= |name| + |value| + 4
    requires Find(s[1..], '=') == |name| && s[1..][..|name|] == name && s[1..][|name| + 1] == '"'
    requires Find(s[1..][|name| + 2..], '"') == |value| && s[1..][|name| + 2..][..|value|] == value
    ensures ReadOne(s) == Some((Attribute(name, value), |name| + |value| + 4))
  {
  }

  /** In a rendered plain attribute the separators lie where `ReadOne` looks for them. */
  lemma RenderedLayout(a: Attribute, t: string)
    requires Plain(a)
    ensures var s := " " + a.name + "=\"" + a.value + "\"" + t;
      var n, v := |a.name|, |a.value|;
      && s != [] && s[0] == ' ' && |s| >= n + v + 4
      && Find(s[1..], '=') == n && s[1..][..n] == a.name && s[1..][n + 1] == '"'
      && Find(s[1..][n + 2..], '"') == v && s[1..][n + 2..][..v] == a.value
      && s[n + v + 4..] == t
  {
    var afterValue := "\"" + t;
    var afterQuote := a.value + afterValue;
    var afterEq := "=\"" + afterQuote;
    var afterSpace := a.name + afterEq;
    Nest(a.name, a.value, t);
    AppendParts(" ", afterSpace);
    FindAt(a.name, '=', afterEq);
    AppendParts(a.name, afterEq);
    DropPast(a.name, afterEq, 2);
    AppendParts("=\"", afterQuote);
    FindAt(a.value, '"', afterValue);
    AppendParts(a.value, afterValue);
    DropPast(" ", afterSpace, |a.name| + |a.value| + 3);
    DropPast(a.name, afterEq, |a.value| + 3);
    DropPast("=\"", afterQuote, |a.value| + 1);
    DropPast(a.value, afterValue, 1);
  }

  /** `Parse` reads one attribute off the front, then the rest. */
  lemma ParseStep(s: string, a: Attribute, used: nat, more: seq<Attribute>)
    requires s != [] && ReadOne(s) == Some((a, used)) && Parse(s[used..]) == Some(more)
    ensures Parse(s) == Some([a] + more)
  {
  }

  /** The rendering of a non-empty list: its head attribute laid out as `ReadOne` expects, then the rest. */
  lemma RenderHead(attrs: seq<Attribute>)
    requires attrs != [] && Plain(attrs[0])
    ensures var s, a := Render(attrs), attrs[0];
      var n, v := |a.name|, |a.value|;
      && s != [] && s[0] == ' ' && |s| >= n + v + 4
      && Find(s[1..], '=') == n && s[1..][..n] == a.name && s[1..][n + 1] == '"'
      && Find(s[1..][n + 2..], '"') == v && s[1..][n + 2..][..v] == a.value
      && s[n + v + 4..] == Render(attrs[1..])
  {
    var a := attrs[0];
    assert Render(attrs) == " " + a.name + "=\"" + a.value + "\"" + Render(attrs[1..]);
    RenderedLayout(a, Render(attrs[1..]));
  }

  /** A text that starts with a plain attribute, laid out as rendered, parses as that attribute and the rest. */
  lemma ParseFront(s: string, a: Attribute, rest: string, more: seq<Attribute>)
    requires s != [] && s[0] == ' ' && |s| >= |a.name| + |a.value| + 4
    requires Find(s[1..], '=') == |a.name| && s[1..][..|a.name|] == a.name && s[1..][|a.name| + 1] == '"'
    requires Find(s[1..][|a.name| + 2..], '"') == |a.value| && s[1..][|a.name| + 2..][..|a.value|] == a.value
    requires s[|a.name| + |a.value| + 4..] == rest && Parse(rest) == Some(more)
    ensures Parse(s) == Some([a] + more)
  {
    var used := |a.name| + |a.value| + 4;
    ReadOneAt(s, a.name, a.value);
    assert Attribute(a.name, a.value) == a;
    assert ReadOne(s) == Some((a, used));
    assert s[used..] == rest;
    ParseStep(s, a, used, more);
  }

  /** Reading back a non-empty rendering: the head, then whatever the rest reads back as. */
  lemma ParseRenderStep(attrs: seq<Attribute>)
    requires attrs != [] && Plain(attrs[0]) && Parse(Render(attrs[1..])) == Some(attrs[1..])
    ensures Parse(Render(attrs)) == Some(attrs)
  {
    var a := attrs[0];
    RenderHead(attrs);
    ParseFront(Render(attrs), a, Render(attrs[1..]), attrs[1..]);
    assert [a] + attrs[1..] == attrs;
  }

  /** Rendering and reading back are inverse on plain attributes. */
  lemma {:induction false} ParseRender(attrs: seq<Attribute>)
    requires forall i :: 0 <= i < |attrs| ==> Plain(attrs[i])
    ensures Parse(Render(attrs)) == Some(attrs)
    decreases |attrs|
  {
    if attrs != [] {
      ParseRender(attrs[1..]);
      ParseRenderStep(attrs);
    }
  }
}
