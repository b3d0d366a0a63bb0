/** The XPath-like query language for QML trees (src/qmlpath.cpp): a
    hand-written parser and a backtracking evaluator. QString::toInt is a
    parameter of the parser. */
module QmlPath {
  import opened Common

  datatype Filter = Index(index: nat) | Property(name: string, value: Option<string>)
  datatype Block = Block(nested: bool, key: string, filters: seq<Filter>)

  type IntParser = string -> Option<int>

  const INT_MAX := 0x7FFF_FFFF
  const KEY_STOPS := {'/', '[', '{'}

  // ------------------------------------------------------------------
  // Parser, as functions from text to result and remaining text
  // ------------------------------------------------------------------

  /** The longest prefix without a stop character. */
  function Span(s: string, stops: set<char>): (r: string)
    ensures |r| <= |s| && r == s[..|r|]
    ensures forall i :: 0 <= i < |r| ==> r[i] !in stops
    ensures |r| < |s| ==> s[|r|] in stops
  {
    if s == [] || s[0] in stops then [] else [s[0]] + Span(s[1..], stops)
  }

  /** "name" or "name=value"; more than one '=' or no name is an error. */
  function ParseProperty(text: string): Option<Filter> {
    var name := Span(text, {'='});
    if |name| == |text| then (if name == "" then None else Some(Property(name, None)))
    else
      var value := text[|name| + 1..];
      if '=' in value || name == "" then None else Some(Property(name, Some(value)))
  }

  function ParseIndex(text: string, toInt: IntParser): Option<Filter> {
    match toInt(text)
    case None => None
    case Some(n) => if n < 0 then None else Some(Index(n))
  }

  function ParseFilter(s: string, toInt: IntParser): (r: Option<(Filter, string)>)
    requires s != []
    ensures r.Some? ==> |r.value.1| < |s|
  {
    if s[0] == '[' then
      var text := Span(s[1..], {']'});
      if |text| + 1 == |s| then None
      else match ParseIndex(text, toInt)
        case None => None
        case Some(f) => Some((f, s[|text| + 2..]))
    else if s[0] == '{' then
      var text := Span(s[1..], {'}'});
      if |text| + 1 == |s| then None
      else match ParseProperty(text)
        case None => None
        case Some(f) => Some((f, s[|text| + 2..]))
    else None
  }

  function ParseFilters(s: string, toInt: IntParser): (r: Option<(seq<Filter>, string)>)
    ensures r.Some? ==> |r.value.1| <= |s| && (s != [] && s[0] != '/' ==> |r.value.1| < |s|)
    ensures r.Some? ==> (r.value.1 == [] || r.value.1[0] == '/')
    decreases |s|
  {
    if s == [] || s[0] == '/' then Some(([], s))
    else match ParseFilter(s, toInt)
      case None => None
      case Some((f, rest)) =>
        match ParseFilters(rest, toInt)
        case None => None
        case Some((fs, rest')) => Some(([f] + fs, rest'))
  }

  /** parsePath() after the slashes. */
  function ParseBody(s: string, nested: bool, toInt: IntParser): (r: Option<(Block, string)>)
    ensures r.Some? ==> |r.value.1| <= |s| && (s != [] && s[0] != '/' ==> |r.value.1| < |s|)
    ensures r.Some? ==> (r.value.1 == [] || r.value.1[0] == '/')
  {
    var key := Span(s, KEY_STOPS);
    match ParseFilters(s[|key|..], toInt)
    case None => None
    case Some((fs, rest)) => Some((Block(nested, key, fs), rest))
  }

  /** parsePath(); a successful call consumes input. */
  function ParseBlock(s: string, toInt: IntParser): (r: Option<(Block, string)>)
    requires s != []
    ensures r.Some? ==> |r.value.1| < |s|
    ensures r.Some? ==> (r.value.1 == [] || r.value.1[0] == '/')
  {
    if s == "/" then Some((Block(false, "", []), ""))
    else
      var s1 := if s[0] == '/' then s[1..] else s;
      if s1[0] == '/' then (if |s1| == 1 then None else ParseBody(s1[1..], true, toInt))
      else ParseBody(s1, false, toInt)
  }

  function ParseBlocks(s: string, toInt: IntParser): Option<seq<Block>>
    requires s != []
    decreases |s|
  {
    match ParseBlock(s, toInt)
    case None => None
    case Some((b, rest)) =>
      if rest == [] then Some([b])
      else match ParseBlocks(rest, toInt)
        case None => None
        case Some(bs) => Some([b] + bs)
  }

  /** The constructor: an invalid path leaves no blocks. */
  function Parse(path: string, toInt: IntParser): seq<Block> {
    if path == [] then [] else
    match ParseBlocks(path, toInt)
    case None => []
    case Some(bs) => bs
  }

  // ------------------------------------------------------------------
  // Printer and its domain
  // ------------------------------------------------------------------

  function Digit(n: nat): char
    requires n < 10
  {
    ['0', '1', '2', '3', '4', '5', '6', '7', '8', '9'][n]
  }

  function Numeral(n: nat): (s: string)
    ensures s != [] && forall i :: 0 <= i < |s| ==> s[i] in "0123456789"
  {
    (if n < 10 then [] else Numeral(n / 10)) + [Digit(n % 10)]
  }

  function PrintFilter(f: Filter): (r: string)
    ensures r != [] && (r[0] == '[' || r[0] == '{')
  {
    match f
    case Index(n) => "[" + Numeral(n) + "]"
    case Property(name, None) => "{" + name + "}"
    case Property(name, Some(value)) => "{" + name + "=" + value + "}"
  }

  function PrintFilters(fs: seq<Filter>): string {
    if fs == [] then "" else PrintFilter(fs[0]) + PrintFilters(fs[1..])
  }

  function PrintBlock(b: Block): string {
    (if b.nested then "//" else "/") + b.key + PrintFilters(b.filters)
  }

  function Print(bs: seq<Block>): string {
    if bs == [] then "" else PrintBlock(bs[0]) + Print(bs[1..])
  }

  predicate Free(s: string, stops: set<char>) {
    forall i :: 0 <= i < |s| ==> s[i] !in stops
  }

  predicate PrintableFilter(f: Filter) {
    match f
    case Index(n) => n <= INT_MAX
    case Property(name, value) =>
      name != "" && Free(name, {'=', '}'}) && (value.Some? ==> Free(value.value, {'=', '}'}))
  }

  predicate Bare(b: Block) {
    b.key == "" && b.filters == []
  }

  /** A bare "/" can only come last, a bare "//" never last. */
  predicate PrintableBlock(b: Block, last: bool) {
    && Free(b.key, KEY_STOPS)
    && (forall i :: 0 <= i < |b.filters| ==> PrintableFilter(b.filters[i]))
    && (Bare(b) ==> last != b.nested)
  }

  predicate Printable(bs: seq<Block>) {
    forall i :: 0 <= i < |bs| ==> PrintableBlock(bs[i], i == |bs| - 1)
  }

  /** What the parser relies on: toInt reads decimal numerals up to INT_MAX
      and returns nothing larger. */
  ghost predicate ReadsNumerals(toInt: IntParser) {
    && (forall n: nat :: n <= INT_MAX ==> toInt(Numeral(n)) == Some(n))
    && (forall s :: toInt(s).Some? ==> toInt(s).value <= INT_MAX)
  }

  // ------------------------------------------------------------------
  // The parser undoes the printer
  // ------------------------------------------------------------------

  lemma {:induction false} SpanExact(a: string, rest: string, stops: set<char>)
    requires Free(a, stops) && (rest == [] || rest[0] in stops)
    ensures Span(a + rest, stops) == a
  {
    if a == [] {
      assert a + rest == rest;
    } else {
      assert (a + rest)[1..] == a[1..] + rest;
      SpanExact(a[1..], rest, stops);
    }
  }

  lemma PropertyUndone(f: Filter)
    requires f.Property? && PrintableFilter(f)
    ensures var text := f.name + (if f.value.Some? then "=" + f.value.value else "");
      Free(text, {'}'}) && PrintFilter(f) == "{" + text + "}" && ParseProperty(text) == Some(f)
  {
    if f.value.None? {
      assert f.name + "" == f.name;
      SpanExact(f.name, "", {'='});
    } else {
      SpanExact(f.name, "=" + f.value.value, {'='});
      var text := f.name + ("=" + f.value.value);
      assert text[|f.name| + 1..] == f.value.value;
    }
  }

  lemma IndexUndone(n: nat, rest: string, toInt: IntParser)
    requires n <= INT_MAX && ReadsNumerals(toInt)
    ensures ParseFilter("[" + Numeral(n) + "]" + rest, toInt) == Some((Index(n), rest))
  {
    hide Span, Numeral;
    var text := Numeral(n);
    var s := "[" + text + "]" + rest;
    SpanExact(text, "]" + rest, {']'});
    assert s[1..] == text + ("]" + rest);
    assert s[|text| + 2..] == rest;
  }

  /** Any text between brackets is an index exactly if it is a number from 0 on. */
  lemma IndexIsNumber(text: string, rest: string, toInt: IntParser)
    requires Free(text, {']'})
    ensures ParseFilter("[" + text + "]" + rest, toInt) ==
      if toInt(text).Some? && toInt(text).value >= 0 then Some((Index(toInt(text).value), rest)) else None
  {
    hide Span;
    var s := "[" + text + "]" + rest;
    SpanExact(text, "]" + rest, {']'});
    assert s[1..] == text + ("]" + rest);
    assert s[|text| + 2..] == rest;
  }

  lemma BracesUndone(text: string, f: Filter, rest: string, toInt: IntParser)
    requires Free(text, {'}'}) && ParseProperty(text) == Some(f)
    ensures ParseFilter("{" + text + "}" + rest, toInt) == Some((f, rest))
  {
    hide Span, ParseProperty;
    var s := "{" + text + "}" + rest;
    SpanExact(text, "}" + rest, {'}'});
    assert s[1..] == text + ("}" + rest);
    assert s[|text| + 2..] == rest;
  }

  lemma FilterUndone(f: Filter, rest: string, toInt: IntParser)
    requires PrintableFilter(f) && ReadsNumerals(toInt)
    ensures ParseFilter(PrintFilter(f) + rest, toInt) == Some((f, rest))
  {
    hide ParseFilter, ParseProperty;
    if f.Index? {
      IndexUndone(f.index, rest, toInt);
    } else {
      PropertyUndone(f);
      BracesUndone(f.name + (if f.value.Some? then "=" + f.value.value else ""), f, rest, toInt);
    }
  }

  lemma Associate<T>(a: seq<T>, b: seq<T>, c: seq<T>)
    ensures (a + b) + c == a + (b + c)
  {
  }

  lemma {:induction false} FiltersUndone(fs: seq<Filter>, rest: string, toInt: IntParser)
    requires (forall i :: 0 <= i < |fs| ==> PrintableFilter(fs[i])) && ReadsNumerals(toInt)
    requires rest == [] || rest[0] == '/'
    ensures ParseFilters(PrintFilters(fs) + rest, toInt) == Some((fs, rest))
  {
    hide ReadsNumerals, PrintFilter, ParseFilter;
    if fs == [] {
      assert PrintFilters(fs) + rest == rest;
    } else {
      var first, others := PrintFilter(fs[0]), PrintFilters(fs[1..]);
      assert PrintFilters(fs) == first + others;
      FilterUndone(fs[0], others + rest, toInt);
      FiltersUndone(fs[1..], rest, toInt);
      assert fs == [fs[0]] + fs[1..];
      hide PrintFilters;
      Associate(first, others, rest);
    }
  }

  lemma FiltersStart(fs: seq<Filter>, rest: string)
    requires rest == [] || rest[0] == '/'
    ensures var s := PrintFilters(fs) + rest;
      (s == [] || s[0] in KEY_STOPS) && (fs != [] ==> s != [] && s[0] != '/')
  {
    if fs == [] {
      assert PrintFilters(fs) + rest == rest;
    }
  }

  lemma BodyUndone(b: Block, rest: string, toInt: IntParser)
    requires Free(b.key, KEY_STOPS) && ReadsNumerals(toInt)
    requires forall i :: 0 <= i < |b.filters| ==> PrintableFilter(b.filters[i])
    requires rest == [] || rest[0] == '/'
    ensures ParseBody(b.key + PrintFilters(b.filters) + rest, b.nested, toInt) == Some((b, rest))
  {
    hide ReadsNumerals;
    var tail := PrintFilters(b.filters) + rest;
    assert b.key + PrintFilters(b.filters) + rest == b.key + tail;
    FiltersStart(b.filters, rest);
    SpanExact(b.key, tail, KEY_STOPS);
    assert (b.key + tail)[|b.key|..] == tail;
    FiltersUndone(b.filters, rest, toInt);
  }

  lemma BlockUndone(b: Block, rest: string, toInt: IntParser)
    requires PrintableBlock(b, rest == []) && ReadsNumerals(toInt)
    requires rest == [] || rest[0] == '/'
    ensures ParseBlock(PrintBlock(b) + rest, toInt) == Some((b, rest))
  {
    hide ReadsNumerals, ParseBody, PrintFilters;
    BodyUndone(b, rest, toInt);
    var body := b.key + PrintFilters(b.filters) + rest;
    BodyStart(b, rest);
    var s := PrintBlock(b) + rest;
    if b.nested {
      assert s == ['/'] + (['/'] + body);
      assert s[1..] == ['/'] + body && s[1..][1..] == body;
    } else if Bare(b) {
      assert s == "/";
    } else {
      assert s == ['/'] + body && s[1..] == body;
    }
  }

  lemma BodyStart(b: Block, rest: string)
    requires Free(b.key, KEY_STOPS) && (rest == [] || rest[0] == '/')
    ensures var body := b.key + PrintFilters(b.filters) + rest;
      && (Bare(b) ==> body == rest)
      && (!Bare(b) ==> body != [] && body[0] != '/')
  {
    hide PrintFilters;
    FiltersStart(b.filters, rest);
    var tail := PrintFilters(b.filters) + rest;
    assert b.key + PrintFilters(b.filters) + rest == b.key + tail;
    if b.key != [] {
      assert (b.key + tail)[0] == b.key[0];
    } else if b.filters == [] {
      NoFilters();
    }
  }

  lemma NoFilters()
    ensures PrintFilters([]) == ""
  {
  }

  lemma PrintStart(bs: seq<Block>)
    ensures (bs == [] && Print(bs) == []) || (bs != [] && Print(bs) != [] && Print(bs)[0] == '/')
  {
  }

  lemma {:induction false} BlocksUndone(bs: seq<Block>, toInt: IntParser)
    requires bs != [] && Printable(bs) && ReadsNumerals(toInt)
    ensures Print(bs) != [] && ParseBlocks(Print(bs), toInt) == Some(bs)
  {
    hide ReadsNumerals, ParseBlock, PrintBlock, PrintableBlock;
    var rest := Print(bs[1..]);
    PrintStart(bs);
    PrintStart(bs[1..]);
    assert PrintableBlock(bs[0], rest == []);
    BlockUndone(bs[0], rest, toInt);
    if rest == [] {
      assert bs == [bs[0]];
    } else {
      assert Printable(bs[1..]) by {
        forall i | 0 <= i < |bs[1..]| ensures PrintableBlock(bs[1..][i], i == |bs[1..]| - 1) {
          assert bs[1..][i] == bs[i + 1];
        }
      }
      BlocksUndone(bs[1..], toInt);
      assert bs == [bs[0]] + bs[1..];
    }
  }

  // ------------------------------------------------------------------
  // Everything the parser accepts is printable
  // ------------------------------------------------------------------

  lemma FilterAccepted(s: string, toInt: IntParser)
    requires s != [] && ReadsNumerals(toInt) && ParseFilter(s, toInt).Some?
    ensures PrintableFilter(ParseFilter(s, toInt).value.0)
  {
    if s[0] == '{' {
      var text := Span(s[1..], {'}'});
      var name := Span(text, {'='});
      assert forall i :: 0 <= i < |name| ==> name[i] == text[i];
      if |name| < |text| {
        var value := text[|name| + 1..];
        assert forall i :: 0 <= i < |value| ==> value[i] == text[|name| + 1 + i];
        assert forall i :: 0 <= i < |value| ==> value[i] in value;
      }
    }
  }

  lemma {:induction false} FiltersAccepted(s: string, toInt: IntParser)
    requires ReadsNumerals(toInt) && ParseFilters(s, toInt).Some?
    ensures forall i :: 0 <= i < |ParseFilters(s, toInt).value.0| ==>
      PrintableFilter(ParseFilters(s, toInt).value.0[i])
    ensures s != [] && s[0] != '/' ==> ParseFilters(s, toInt).value.0 != []
    decreases |s|
  {
    hide ReadsNumerals, ParseFilter, PrintableFilter;
    if s != [] && s[0] != '/' {
      FilterAccepted(s, toInt);
      FiltersAccepted(ParseFilter(s, toInt).value.1, toInt);
    }
  }

  lemma BodyAccepted(s: string, nested: bool, toInt: IntParser)
    requires ReadsNumerals(toInt) && ParseBody(s, nested, toInt).Some?
    ensures var (b, rest) := ParseBody(s, nested, toInt).value;
      && b.nested == nested && Free(b.key, KEY_STOPS)
      && (forall i :: 0 <= i < |b.filters| ==> PrintableFilter(b.filters[i]))
      && (Bare(b) ==> rest == s && (s == [] || s[0] == '/'))
  {
    hide ReadsNumerals, PrintableFilter;
    var key := Span(s, KEY_STOPS);
    FiltersAccepted(s[|key|..], toInt);
    if key == [] {
      assert s[|key|..] == s;
    }
  }

  lemma BlockAccepted(s: string, toInt: IntParser)
    requires s != [] && ReadsNumerals(toInt) && ParseBlock(s, toInt).Some?
    ensures var (b, rest) := ParseBlock(s, toInt).value; PrintableBlock(b, rest == [])
  {
    hide ReadsNumerals, ParseBody, PrintableFilter;
    if s != "/" {
      var s1 := if s[0] == '/' then s[1..] else s;
      if s1[0] == '/' {
        BodyAccepted(s1[1..], true, toInt);
      } else {
        BodyAccepted(s1, false, toInt);
      }
    }
  }

  lemma {:induction false} BlocksAccepted(s: string, toInt: IntParser)
    requires s != [] && ReadsNumerals(toInt) && ParseBlocks(s, toInt).Some?
    ensures ParseBlocks(s, toInt).value != [] && Printable(ParseBlocks(s, toInt).value)
    decreases |s|
  {
    hide ReadsNumerals, ParseBlock, PrintableBlock;
    BlockAccepted(s, toInt);
    var (b, rest) := ParseBlock(s, toInt).value;
    if rest != [] {
      BlocksAccepted(rest, toInt);
    }
  }

  /** The parser undoes the printer on exactly the printable block lists. */
  lemma RoundTrip(bs: seq<Block>, toInt: IntParser)
    requires bs != [] && ReadsNumerals(toInt)
    ensures Parse(Print(bs), toInt) == bs <==> Printable(bs)
  {
    hide ReadsNumerals, ParseBlocks, Printable;
    PrintStart(bs);
    if Printable(bs) {
      BlocksUndone(bs, toInt);
    }
    if ParseBlocks(Print(bs), toInt).Some? {
      BlocksAccepted(Print(bs), toInt);
    }
  }

  // ------------------------------------------------------------------
  // The parser as the source writes it: a cursor over the text
  // ------------------------------------------------------------------

  /** Appends characters until a stop or the end, as three loops of parsePath do. */
  method ReadUntil(input: string, stops: set<char>) returns (text: string, rest: string)
    ensures text == Span(input, stops) && rest == input[|text|..]
  {
    hide Span;
    text, rest := "", input;
    while rest != [] && rest[0] !in stops
      invariant text + rest == input && Free(text, stops)
      decreases |rest|
    {
      assert text + rest == text + [rest[0]] + rest[1..];
      text, rest := text + [rest[0]], rest[1..];
    }
    SpanExact(text, rest, stops);
  }

  /** The text between the '=' signs. */
  function Fields(s: string): (r: seq<string>)
    ensures r != []
    decreases |s|
  {
    var first := Span(s, {'='});
    if |first| == |s| then [first] else [first] + Fields(s[|first| + 1..])
  }

  method SplitAtEquals(text: string) returns (parts: seq<string>)
    ensures parts == Fields(text)
  {
    hide Span, Fields;
    var part, rest := ReadUntil(text, {'='});
    parts := [];
    ghost var at := text;
    while rest != []
      invariant part == Span(at, {'='}) && rest == at[|part|..] && parts + Fields(at) == Fields(text)
      decreases |rest|
    {
      NextField(parts, at, text);
      assert rest[1..] == at[|part| + 1..];
      parts := parts + [part];
      at := rest[1..];
      part, rest := ReadUntil(rest[1..], {'='});
    }
    LastField(at);
    parts := parts + [part];
  }

  lemma NextField(parts: seq<string>, at: string, text: string)
    requires |Span(at, {'='})| < |at| && parts + Fields(at) == Fields(text)
    ensures var first := Span(at, {'='}); (parts + [first]) + Fields(at[|first| + 1..]) == Fields(text)
  {
    hide Span, Fields;
    var first := Span(at, {'='});
    FirstField(at);
    Associate(parts, [first], Fields(at[|first| + 1..]));
  }

  lemma FirstField(s: string)
    requires |Span(s, {'='})| < |s|
    ensures var first := Span(s, {'='}); Fields(s) == [first] + Fields(s[|first| + 1..])
  {
    hide Span;
  }

  lemma LastField(s: string)
    ensures |Span(s, {'='})| == |s| ==> Fields(s) == [Span(s, {'='})]
  {
    hide Span;
  }

  /** The checks on the split text accept what ParseProperty accepts. */
  lemma PropertyFromFields(text: string)
    ensures var parts := Fields(text);
      ParseProperty(text) ==
        if |parts| > 2 || parts[0] == "" then None
        else Some(Property(parts[0], if |parts| > 1 then Some(parts[1]) else None))
  {
    hide Span;
    var name := Span(text, {'='});
    if |name| < |text| {
      var value := text[|name| + 1..];
      var v := Span(value, {'='});
      assert '=' in value <==> |v| < |value|;
      assert |v| == |value| ==> v == value;
    }
  }

  method ReadFilter(input: string, toInt: IntParser) returns (r: Option<(Filter, string)>)
    requires input != []
    ensures r == ParseFilter(input, toInt)
  {
    hide Span, ParseProperty;
    if input[0] == '[' {
      var number, rest := ReadUntil(input[1..], {']'});
      if rest == [] {
        return None;
      }
      var n := toInt(number);
      if n.None? || n.value < 0 {
        return None;
      }
      return Some((Index(n.value), rest[1..]));
    }
    if input[0] == '{' {
      var text, rest := ReadUntil(input[1..], {'}'});
      if rest == [] {
        return None;
      }
      var parts := SplitAtEquals(text);
      PropertyFromFields(text);
      if |parts| > 2 {
        return None;
      }
      var name, value := parts[0], None;
      if name == "" {
        return None;
      }
      if |parts| > 1 {
        value := Some(parts[1]);
      }
      return Some((Property(name, value), rest[1..]));
    }
    return None;
  }

  /** Puts filters already read in front of the ones still to come. */
  function Prepend(fs: seq<Filter>, r: Option<(seq<Filter>, string)>): Option<(seq<Filter>, string)> {
    match r
    case None => None
    case Some((gs, rest)) => Some((fs + gs, rest))
  }

  lemma PrependFilters(a: seq<Filter>, b: seq<Filter>, r: Option<(seq<Filter>, string)>)
    ensures Prepend(a, Prepend(b, r)) == Prepend(a + b, r)
    ensures Prepend([], r) == r
  {
    if r.Some? {
      assert a + (b + r.value.0) == (a + b) + r.value.0;
      assert [] + r.value.0 == r.value.0;
    }
  }

  method ReadFilters(input: string, toInt: IntParser) returns (r: Option<(seq<Filter>, string)>)
    ensures r == ParseFilters(input, toInt)
  {
    hide ParseFilter;
    var filters, rest := [], input;
    PrependFilters([], [], ParseFilters(rest, toInt));
    while rest != [] && rest[0] != '/'
      invariant Prepend(filters, ParseFilters(rest, toInt)) == ParseFilters(input, toInt)
      decreases |rest|
    {
      var f := ReadFilter(rest, toInt);
      if f.None? {
        return None;
      }
      PrependFilters(filters, [f.value.0], ParseFilters(f.value.1, toInt));
      filters, rest := filters + [f.value.0], f.value.1;
    }
    assert filters + [] == filters;
    return Some((filters, rest));
  }

  /** parsePath() */
  method ReadBlock(input: string, toInt: IntParser) returns (r: Option<(Block, string)>)
    requires input != []
    ensures r == ParseBlock(input, toInt)
  {
    hide Span, ParseFilters;
    var rest, nested := input, false;
    if rest[0] == '/' {
      rest := rest[1..];
      if rest == [] {
        assert input == "/";
        return Some((Block(false, "", []), ""));
      }
    }
    if rest[0] == '/' {
      nested, rest := true, rest[1..];
      if rest == [] {
        return None;
      }
    }
    var key, after := ReadUntil(rest, KEY_STOPS);
    var fs := ReadFilters(after, toInt);
    if fs.None? {
      return None;
    }
    return Some((Block(nested, key, fs.value.0), fs.value.1));
  }

  /** Puts blocks already read in front of the ones still to come. */
  function After(blocks: seq<Block>, r: Option<seq<Block>>): Option<seq<Block>> {
    match r
    case None => None
    case Some(bs) => Some(blocks + bs)
  }

  lemma NextBlock(blocks: seq<Block>, input: string, toInt: IntParser)
    requires input != []
    ensures After(blocks, ParseBlocks(input, toInt)) ==
      match ParseBlock(input, toInt)
      case None => None
      case Some((b, rest)) =>
        if rest == [] then Some(blocks + [b]) else After(blocks + [b], ParseBlocks(rest, toInt))
  {
    hide ParseBlock;
    match ParseBlock(input, toInt)
    case None =>
    case Some((b, rest)) =>
      if rest != [] && ParseBlocks(rest, toInt).Some? {
        var bs := ParseBlocks(rest, toInt).value;
        assert blocks + ([b] + bs) == (blocks + [b]) + bs;
      }
  }

  lemma NoneBefore(r: Option<seq<Block>>)
    ensures After([], r) == r
  {
    if r.Some? {
      assert [] + r.value == r.value;
    }
  }

  /** The constructor: blocks are kept only when the whole text parses. */
  method ReadPath(path: string, toInt: IntParser) returns (blocks: seq<Block>)
    ensures blocks == Parse(path, toInt)
  {
    if path == [] {
      return [];
    }
    hide ParseBlock, ParseBlocks, After;
    var rest := path;
    blocks := [];
    NoneBefore(ParseBlocks(path, toInt));
    while true
      invariant rest != []
      invariant After(blocks, ParseBlocks(rest, toInt)) == ParseBlocks(path, toInt)
      decreases |rest|
    {
      NextBlock(blocks, rest, toInt);
      var b := ReadBlock(rest, toInt);
      if b.None? {
        return [];
      }
      blocks, rest := blocks + [b.value.0], b.value.1;
      if rest == [] || rest[0] != '/' {
        break;
      }
    }
  }

  // ------------------------------------------------------------------
  // Evaluation
  // ------------------------------------------------------------------

  /** A QML item: its object name, normalised class name, properties (as text),
      visual children, and the item its contentItem property holds, if any. */
  datatype Item = Item(name: string, className: string, props: map<string, string>,
                       children: seq<Item>, content: Option<Item>)

  /** collectChildItems() */
  function ChildItems(item: Item): seq<Item> {
    item.children + (if item.content.Some? then ChildItems(item.content.value) else [])
  }

  function Size(item: Item): (n: nat)
    ensures n > 0
  {
    1 + SizeAll(item.children) + (if item.content.Some? then Size(item.content.value) else 0)
  }

  function SizeAll(items: seq<Item>): nat {
    if items == [] then 0 else Size(items[0]) + SizeAll(items[1..])
  }

  lemma {:induction false} SizeAppend(a: seq<Item>, b: seq<Item>)
    ensures SizeAll(a + b) == SizeAll(a) + SizeAll(b)
  {
    if a == [] {
      assert a + b == b;
    } else {
      assert (a + b)[1..] == a[1..] + b;
      SizeAppend(a[1..], b);
    }
  }

  lemma {:induction false} ChildrenSmaller(item: Item)
    ensures SizeAll(ChildItems(item)) < Size(item)
  {
    if item.content.Some? {
      ChildrenSmaller(item.content.value);
      SizeAppend(item.children, ChildItems(item.content.value));
    } else {
      assert ChildItems(item) == item.children;
    }
  }

  /** The visual children come first, then those of the content item. */
  lemma ChildrenFirst(item: Item)
    ensures item.children <= ChildItems(item)
    ensures ChildItems(item)[|item.children|..]
         == if item.content.Some? then ChildItems(item.content.value) else []
  {
  }

  function Named(items: seq<Item>, key: string): seq<Item> {
    if items == [] then []
    else (if items[0].name == key then [items[0]] else []) + Named(items[1..], key)
  }

  /** findItems() over a list of children. */
  function FindAmong(items: seq<Item>, key: string): seq<Item>
    decreases SizeAll(items)
  {
    if items == [] then []
    else
      ChildrenSmaller(items[0]);
      (if items[0].name == key then [items[0]] else [])
      + FindAmong(ChildItems(items[0]), key) + FindAmong(items[1..], key)
  }

  function FindItems(item: Item, key: string): seq<Item> {
    FindAmong(ChildItems(item), key)
  }

  function FindBelow(items: seq<Item>, key: string): seq<Item> {
    if items == [] then [] else FindItems(items[0], key) + FindBelow(items[1..], key)
  }

  predicate HasProperty(item: Item, name: string, value: Option<string>) {
    if name == "className" && value.Some? then item.className == value.value
    else name in item.props && (value.Some? ==> item.props[name] == value.value)
  }

  function WithProperty(items: seq<Item>, name: string, value: Option<string>): seq<Item> {
    if items == [] then []
    else (if HasProperty(items[0], name, value) then [items[0]] else []) + WithProperty(items[1..], name, value)
  }

  function ApplyFilter(items: seq<Item>, f: Filter): seq<Item> {
    match f
    case Index(n) => if n < |items| then [items[n]] else []
    case Property(name, value) => WithProperty(items, name, value)
  }

  function ApplyFilters(items: seq<Item>, fs: seq<Filter>): seq<Item>
    decreases |fs|
  {
    if fs == [] then items else ApplyFilters(ApplyFilter(items, fs[0]), fs[1..])
  }

  /** The items a block's key selects, before its filters. */
  function Lookup(items: seq<Item>, b: Block): seq<Item> {
    if b.key == "" then items
    else Named(items, b.key) + (if b.nested then FindBelow(items, b.key) else [])
  }

  function Select(items: seq<Item>, b: Block): seq<Item> {
    ApplyFilters(Lookup(items, b), b.filters)
  }

  /** evaluateItems() */
  function Evaluate(current: Option<Item>, items: seq<Item>, blocks: seq<Block>): Option<Item>
    decreases |blocks|, 0
  {
    if blocks == [] then current
    else if items == [] then None
    else FirstOf(Select(items, blocks[0]), blocks[1..])
  }

  function FirstOf(results: seq<Item>, blocks: seq<Block>): Option<Item>
    decreases |blocks|, |results| + 1
  {
    if results == [] then None
    else
      var r := Evaluate(Some(results[0]), ChildItems(results[0]), blocks);
      if r.Some? then r else FirstOf(results[1..], blocks)
  }

  // -- what it should mean: a description of the items a block selects

  /** The descendants of the items, each item's in walk order. */
  function Descendants(items: seq<Item>): seq<Item> {
    if items == [] then [] else Preorder(ChildItems(items[0])) + Descendants(items[1..])
  }

  /** xs are the items that the block's key selects: without a key, all; else
      those of the level that bear it, followed, for a nested block, by the
      descendants that do. */
  ghost predicate Found(items: seq<Item>, b: Block, xs: seq<Item>) {
    if b.key == "" then xs == items
    else if !b.nested then Filtered(items, (x: Item) => x.name == b.key, xs)
    else exists level, below ::
      && Filtered(items, (x: Item) => x.name == b.key, level)
      && Filtered(Descendants(items), (x: Item) => x.name == b.key, below)
      && xs == level + below
  }

  /** ys are the items of xs that a filter leaves: the one at the index, counted
      from the front; or those whose property exists and equals the value, if one
      is given. A value for className is compared with the class. */
  ghost predicate Narrowed(xs: seq<Item>, f: Filter, ys: seq<Item>) {
    match f
    case Index(k) => |ys| == (if k < |xs| then 1 else 0) && (k < |xs| ==> ys[0] == xs[k])
    case Property(name, None) => Filtered(xs, (x: Item) => name in x.props, ys)
    case Property(name, Some(value)) =>
      if name == "className" then Filtered(xs, (x: Item) => x.className == value, ys)
      else Filtered(xs, (x: Item) => name in x.props && x.props[name] == value, ys)
  }

  /** The filters apply one after the other. */
  ghost predicate NarrowedAll(xs: seq<Item>, fs: seq<Filter>, ys: seq<Item>)
    decreases |fs|
  {
    if fs == [] then ys == xs
    else exists mid :: Narrowed(xs, fs[0], mid) && NarrowedAll(mid, fs[1..], ys)
  }

  ghost predicate Selected(items: seq<Item>, b: Block, ys: seq<Item>) {
    exists xs :: Found(items, b, xs) && NarrowedAll(xs, b.filters, ys)
  }

  // -- and Select gives just these

  lemma {:induction false} NamedFilter(items: seq<Item>, key: string, keep: Item -> bool)
    requires forall x :: keep(x) <==> x.name == key
    ensures Named(items, key) == Kept(items, keep)
  {
    if items != [] {
      NamedFilter(items[1..], key, keep);
      KeptCons(items[0], items[1..], keep);
      assert [items[0]] + items[1..] == items;
    }
  }

  lemma {:induction false} PropertyFilter(items: seq<Item>, name: string, value: Option<string>, keep: Item -> bool)
    requires forall x :: keep(x) <==> HasProperty(x, name, value)
    ensures WithProperty(items, name, value) == Kept(items, keep)
  {
    hide HasProperty;
    if items != [] {
      PropertyFilter(items[1..], name, value, keep);
      KeptCons(items[0], items[1..], keep);
      assert [items[0]] + items[1..] == items;
    }
  }

  lemma {:induction false} FindBelowNamed(items: seq<Item>, key: string)
    ensures FindBelow(items, key) == Named(Descendants(items), key)
  {
    if items != [] {
      FindBelowNamed(items[1..], key);
      FindAmongIsNamed(ChildItems(items[0]), key);
      NamedAppend(Preorder(ChildItems(items[0])), Descendants(items[1..]), key);
    }
  }

  lemma FoundIff(items: seq<Item>, b: Block, xs: seq<Item>)
    ensures Found(items, b, xs) <==> xs == Lookup(items, b)
  {
    hide Named, Filtered, FindBelow, Descendants;
    var keep := (x: Item) => x.name == b.key;
    var below := Descendants(items);
    NamedFilter(items, b.key, keep);
    FilteredIff(items, keep, xs);
    FindBelowNamed(items, b.key);
    NamedFilter(below, b.key, keep);
    FilteredIff(items, keep, Named(items, b.key));
    FilteredIff(below, keep, Named(below, b.key));
    if b.key != "" && b.nested && Found(items, b, xs) {
      var l, r :| Filtered(items, keep, l) && Filtered(below, keep, r) && xs == l + r;
      FilteredIff(items, keep, l);
      FilteredIff(below, keep, r);
    }
    assert Named(items, b.key) + [] == Named(items, b.key);
  }

  lemma NarrowedIff(xs: seq<Item>, f: Filter, ys: seq<Item>)
    ensures Narrowed(xs, f, ys) <==> ys == ApplyFilter(xs, f)
  {
    hide Filtered, WithProperty;
    match f
    case Index(k) =>
      assert k < |xs| && |ys| == 1 ==> ys == [ys[0]];
    case Property(name, None) =>
      var keep := (x: Item) => name in x.props;
      PropertyFilter(xs, name, None, keep);
      FilteredIff(xs, keep, ys);
    case Property(name, Some(value)) =>
      if name == "className" {
        var keep := (x: Item) => x.className == value;
        PropertyFilter(xs, name, Some(value), keep);
        FilteredIff(xs, keep, ys);
      } else {
        var keep := (x: Item) => name in x.props && x.props[name] == value;
        PropertyFilter(xs, name, Some(value), keep);
        FilteredIff(xs, keep, ys);
      }
  }

  lemma {:induction false} NarrowedAllIff(xs: seq<Item>, fs: seq<Filter>, ys: seq<Item>)
    ensures NarrowedAll(xs, fs, ys) <==> ys == ApplyFilters(xs, fs)
    decreases |fs|
  {
    hide Narrowed, ApplyFilter;
    if fs != [] {
      var mid := ApplyFilter(xs, fs[0]);
      NarrowedIff(xs, fs[0], mid);
      NarrowedAllIff(mid, fs[1..], ys);
      if m :| Narrowed(xs, fs[0], m) && NarrowedAll(m, fs[1..], ys) {
        NarrowedIff(xs, fs[0], m);
      }
    }
  }

  /** Select gives exactly the items that the description selects. */
  lemma SelectIff(items: seq<Item>, b: Block, ys: seq<Item>)
    ensures Selected(items, b, ys) <==> ys == Select(items, b)
  {
    hide Found, NarrowedAll, Lookup, ApplyFilters;
    var xs := Lookup(items, b);
    FoundIff(items, b, xs);
    NarrowedAllIff(xs, b.filters, ys);
    if zs :| Found(items, b, zs) && NarrowedAll(zs, b.filters, ys) {
      FoundIff(items, b, zs);
    }
  }

  // -- chains of choices

  /** A chain picks, for each block, the position of one selected item; the
      next block is then applied to that item's children. */
  ghost predicate Chain(items: seq<Item>, blocks: seq<Block>, c: seq<nat>)
    decreases |blocks|
  {
    if blocks == [] then c == []
    else exists s ::
      Selected(items, blocks[0], s) && c != [] && c[0] < |s| && Chain(ChildItems(s[c[0]]), blocks[1..], c[1..])
  }

  /** The item that a chain ends at. */
  ghost predicate EndsAt(items: seq<Item>, blocks: seq<Block>, c: seq<nat>, x: Item)
    requires blocks != []
    decreases |blocks|
  {
    exists s ::
      && Selected(items, blocks[0], s) && c != [] && c[0] < |s|
      && (if |blocks| == 1 then c[1..] == [] && x == s[c[0]]
          else EndsAt(ChildItems(s[c[0]]), blocks[1..], c[1..], x))
  }

  lemma ChainUnfold(items: seq<Item>, blocks: seq<Block>, c: seq<nat>)
    requires blocks != []
    ensures var s := Select(items, blocks[0]);
      Chain(items, blocks, c) <==> c != [] && c[0] < |s| && Chain(ChildItems(s[c[0]]), blocks[1..], c[1..])
  {
    hide Selected, Select;
    var s := Select(items, blocks[0]);
    SelectIff(items, blocks[0], s);
    if Chain(items, blocks, c) {
      var t :| Selected(items, blocks[0], t) && c != [] && c[0] < |t| && Chain(ChildItems(t[c[0]]), blocks[1..], c[1..]);
      SelectIff(items, blocks[0], t);
    }
  }

  lemma EndsUnfold(items: seq<Item>, blocks: seq<Block>, c: seq<nat>, x: Item)
    requires blocks != []
    ensures var s := Select(items, blocks[0]);
      EndsAt(items, blocks, c, x) <==>
        c != [] && c[0] < |s| && if |blocks| == 1 then c[1..] == [] && x == s[c[0]]
                                 else EndsAt(ChildItems(s[c[0]]), blocks[1..], c[1..], x)
  {
    hide Selected, Select;
    var s := Select(items, blocks[0]);
    SelectIff(items, blocks[0], s);
    if EndsAt(items, blocks, c, x) {
      var t :|
        && Selected(items, blocks[0], t) && c != [] && c[0] < |t|
        && (if |blocks| == 1 then c[1..] == [] && x == t[c[0]]
            else EndsAt(ChildItems(t[c[0]]), blocks[1..], c[1..], x));
      SelectIff(items, blocks[0], t);
    }
  }

  /** c comes no later than d in traversal order. */
  ghost predicate NotAfter(c: seq<nat>, d: seq<nat>) {
    c == [] || (d != [] && (c[0] < d[0] || (c[0] == d[0] && NotAfter(c[1..], d[1..]))))
  }

  lemma {:induction false} SelectNothing(b: Block)
    ensures Select([], b) == []
  {
    FilterNothing(b.filters);
  }

  lemma {:induction false} FilterNothing(fs: seq<Filter>)
    ensures ApplyFilters([], fs) == []
  {
    if fs != [] {
      FilterNothing(fs[1..]);
    }
  }

  /** Soundness: a result is the end of a chain that no chain precedes. */
  lemma {:induction false} EvaluateSound(current: Option<Item>, items: seq<Item>, blocks: seq<Block>)
      returns (c: seq<nat>)
    requires blocks != [] && Evaluate(current, items, blocks).Some?
    ensures Chain(items, blocks, c)
    ensures EndsAt(items, blocks, c, Evaluate(current, items, blocks).value)
    ensures forall d :: Chain(items, blocks, d) ==> NotAfter(c, d)
    decreases |blocks|, 0
  {
    hide Select, Chain, EndsAt;
    var s := Select(items, blocks[0]);
    var k, rest := FirstOfSound(s, blocks[1..]);
    c := [k] + rest;
    assert c[1..] == rest;
    ChainUnfold(items, blocks, c);
    EndsUnfold(items, blocks, c, Evaluate(current, items, blocks).value);
    if |blocks| == 1 {
      assert rest == [] by { EmptyChain(ChildItems(s[k]), blocks[1..], rest); }
    }
    forall d | Chain(items, blocks, d) ensures NotAfter(c, d) {
      ChainUnfold(items, blocks, d);
    }
  }

  lemma EmptyChain(items: seq<Item>, blocks: seq<Block>, c: seq<nat>)
    requires blocks == [] && Chain(items, blocks, c)
    ensures c == []
  {
  }

  lemma NoBlocksChain(items: seq<Item>, d: seq<nat>)
    ensures Chain(items, [], d) <==> d == []
  {
  }

  /** The first position from which the rest of the blocks can be satisfied. */
  lemma {:induction false} FirstOfSound(results: seq<Item>, blocks: seq<Block>) returns (k: nat, c: seq<nat>)
    requires FirstOf(results, blocks).Some?
    ensures k < |results| && Chain(ChildItems(results[k]), blocks, c)
    ensures blocks == [] ==> FirstOf(results, blocks).value == results[k]
    ensures blocks != [] ==> EndsAt(ChildItems(results[k]), blocks, c, FirstOf(results, blocks).value)
    ensures forall d :: Chain(ChildItems(results[k]), blocks, d) ==> NotAfter(c, d)
    ensures forall j, d :: 0 <= j < k ==> !Chain(ChildItems(results[j]), blocks, d)
    decreases |blocks|, |results| + 1
  {
    hide Select, Chain, EndsAt;
    var item := results[0];
    var r := Evaluate(Some(item), ChildItems(item), blocks);
    if r.Some? {
      k := 0;
      if blocks == [] {
        c := [];
        forall d ensures Chain(ChildItems(item), [], d) <==> d == [] {
          NoBlocksChain(ChildItems(item), d);
        }
      } else {
        c := EvaluateSound(Some(item), ChildItems(item), blocks);
      }
    } else {
      var k', c' := FirstOfSound(results[1..], blocks);
      k, c := k' + 1, c';
      forall j, d | 0 <= j < k ensures !Chain(ChildItems(results[j]), blocks, d) {
        if j == 0 {
          EvaluateComplete(Some(item), ChildItems(item), blocks, d);
        } else {
          assert results[j] == results[1..][j - 1];
        }
      }
    }
  }

  /** Completeness: without a result there is no chain. */
  lemma {:induction false} EvaluateComplete(current: Option<Item>, items: seq<Item>, blocks: seq<Block>,
                                            c: seq<nat>)
    requires Evaluate(current, items, blocks).None? && (blocks == [] ==> current.Some?)
    ensures !Chain(items, blocks, c)
    decreases |blocks|, 0
  {
    hide Select, Chain;
    if blocks != [] {
      var s := Select(items, blocks[0]);
      ChainUnfold(items, blocks, c);
      SelectNothing(blocks[0]);
      if items != [] && c != [] && c[0] < |s| {
        FirstOfComplete(s, blocks[1..], c[0], c[1..]);
      }
    }
  }

  lemma {:induction false} FirstOfComplete(results: seq<Item>, blocks: seq<Block>, k: nat, c: seq<nat>)
    requires FirstOf(results, blocks).None? && k < |results|
    ensures !Chain(ChildItems(results[k]), blocks, c)
    decreases |blocks|, |results| + 1
  {
    hide Select;
    if k == 0 {
      EvaluateComplete(Some(results[0]), ChildItems(results[0]), blocks, c);
    } else {
      FirstOfComplete(results[1..], blocks, k - 1, c);
    }
  }

  /** evaluate() returns null exactly when no chain exists, and otherwise the
      end of the first chain in traversal order. */
  lemma EvaluationCorrect(items: seq<Item>, blocks: seq<Block>)
    requires blocks != []
    ensures Evaluate(None, items, blocks).None? <==> forall c :: !Chain(items, blocks, c)
    ensures Evaluate(None, items, blocks).Some? ==> exists c ::
      && Chain(items, blocks, c) && EndsAt(items, blocks, c, Evaluate(None, items, blocks).value)
      && forall d :: Chain(items, blocks, d) ==> NotAfter(c, d)
  {
    if Evaluate(None, items, blocks).Some? {
      var c := EvaluateSound(None, items, blocks);
    } else {
      forall c ensures !Chain(items, blocks, c) {
        EvaluateComplete(None, items, blocks, c);
      }
    }
  }

  // -- nested lookup

  /** The items and all their descendants, depth first. */
  function Preorder(items: seq<Item>): seq<Item>
    decreases SizeAll(items)
  {
    if items == [] then []
    else
      ChildrenSmaller(items[0]);
      [items[0]] + Preorder(ChildItems(items[0])) + Preorder(items[1..])
  }

  lemma {:induction false} NamedAppend(a: seq<Item>, b: seq<Item>, key: string)
    ensures Named(a + b, key) == Named(a, key) + Named(b, key)
  {
    if a == [] {
      assert a + b == b;
    } else {
      assert (a + b)[0] == a[0] && (a + b)[1..] == a[1..] + b;
      NamedAppend(a[1..], b, key);
      var head := if a[0].name == key then [a[0]] else [];
      assert Named(a + b, key) == head + Named(a[1..] + b, key);
      assert Named(a, key) == head + Named(a[1..], key);
      hide Named;
    }
  }

  /** findItems() keeps the descendants with the key, in document order. */
  lemma {:induction false} FindAmongIsNamed(items: seq<Item>, key: string)
    ensures FindAmong(items, key) == Named(Preorder(items), key)
    decreases SizeAll(items)
  {
    if items != [] {
      var below, after := Preorder(ChildItems(items[0])), Preorder(items[1..]);
      ChildrenSmaller(items[0]);
      FindAmongIsNamed(ChildItems(items[0]), key);
      FindAmongIsNamed(items[1..], key);
      hide Preorder, FindAmong;
      NamedAppend([items[0]] + below, after, key);
      NamedAppend([items[0]], below, key);
      assert [items[0]][1..] == [];
    }
  }

  lemma {:induction false} NamedMember(items: seq<Item>, key: string, x: Item)
    ensures x in Named(items, key) <==> x in items && x.name == key
  {
    if items != [] {
      NamedMember(items[1..], key, x);
      assert items == [items[0]] + items[1..];
    }
  }

  /** The item reached by following child positions from a list of items. */
  ghost function ItemAt(items: seq<Item>, path: seq<nat>): Option<Item>
    decreases |path|
  {
    if path == [] || path[0] >= |items| then None
    else if |path| == 1 then Some(items[path[0]])
    else ItemAt(ChildItems(items[path[0]]), path[1..])
  }

  /** Preorder lists exactly the items that some path reaches. */
  lemma {:induction false} PreorderReaches(items: seq<Item>, x: Item) returns (path: seq<nat>)
    requires x in Preorder(items)
    ensures ItemAt(items, path) == Some(x)
    decreases SizeAll(items)
  {
    ChildrenSmaller(items[0]);
    if x == items[0] {
      path := [0];
    } else if x in Preorder(ChildItems(items[0])) {
      var sub := PreorderReaches(ChildItems(items[0]), x);
      path := [0] + sub;
      assert path[1..] == sub;
    } else {
      assert x in Preorder(items[1..]);
      var sub := PreorderReaches(items[1..], x);
      path := [sub[0] + 1] + sub[1..];
      assert path[1..] == sub[1..] && items[1..][sub[0]] == items[path[0]];
    }
  }

  lemma {:induction false} ReachedInPreorder(items: seq<Item>, path: seq<nat>)
    requires ItemAt(items, path).Some?
    ensures ItemAt(items, path).value in Preorder(items)
    decreases SizeAll(items)
  {
    ChildrenSmaller(items[0]);
    if path[0] == 0 {
      if |path| > 1 {
        ReachedInPreorder(ChildItems(items[0]), path[1..]);
      }
    } else {
      var shifted := [path[0] - 1] + path[1..];
      assert shifted[1..] == path[1..] && items[1..][shifted[0]] == items[path[0]];
      assert ItemAt(items[1..], shifted) == ItemAt(items, path);
      ReachedInPreorder(items[1..], shifted);
    }
  }

  /** p comes before q in a walk: an item before what is below it, and all of
      that before the items after it. */
  ghost predicate WalkedBefore(p: seq<nat>, q: seq<nat>) {
    q != [] && (p == [] || p[0] < q[0] || (p[0] == q[0] && WalkedBefore(p[1..], q[1..])))
  }

  ghost predicate AllAt(items: seq<Item>, xs: seq<Item>, ps: seq<seq<nat>>) {
    |ps| == |xs| && forall i :: 0 <= i < |ps| ==> ItemAt(items, ps[i]) == Some(xs[i])
  }

  /** ps lists the positions of xs in the tree, all of them, in walk order. */
  ghost predicate Walk(items: seq<Item>, xs: seq<Item>, ps: seq<seq<nat>>) {
    && AllAt(items, xs, ps)
    && (forall i, j :: 0 <= i < j < |ps| ==> WalkedBefore(ps[i], ps[j]))
    && (forall p :: ItemAt(items, p).Some? ==> p in ps)
  }

  lemma {:induction false} WalkedPrefixed(k: nat, p: seq<nat>, q: seq<nat>)
    requires WalkedBefore(p, q)
    ensures WalkedBefore([k] + p, [k] + q)
  {
    assert ([k] + p)[1..] == p && ([k] + q)[1..] == q;
  }

  function Under(ps: seq<seq<nat>>): seq<seq<nat>> {
    seq(|ps|, i requires 0 <= i < |ps| => [0] + ps[i])
  }

  /** Positions in the rest of a list, seen from the whole. */
  function Shift(p: seq<nat>): seq<nat> {
    if p == [] then [] else [p[0] + 1] + p[1..]
  }

  function Beside(ps: seq<seq<nat>>): seq<seq<nat>> {
    seq(|ps|, i requires 0 <= i < |ps| => Shift(ps[i]))
  }

  lemma UnderAt(items: seq<Item>, p: seq<nat>)
    requires items != [] && p != []
    ensures ItemAt(items, [0] + p) == ItemAt(ChildItems(items[0]), p)
  {
    assert ([0] + p)[1..] == p;
  }

  lemma BesideAt(items: seq<Item>, p: seq<nat>)
    requires items != [] && p != []
    ensures ItemAt(items, Shift(p)) == ItemAt(items[1..], p)
  {
    assert Shift(p)[1..] == p[1..];
    if p[0] < |items[1..]| {
      assert items[Shift(p)[0]] == items[1..][p[0]];
    }
  }

  lemma WalkedShifted(p: seq<nat>, q: seq<nat>)
    requires p != [] && q != [] && WalkedBefore(p, q)
    ensures WalkedBefore(Shift(p), Shift(q))
  {
    assert Shift(p)[1..] == p[1..] && Shift(q)[1..] == q[1..];
  }

  /** Preorder lists every position of the tree once, in walk order. */
  lemma {:induction false} PreorderWalks(items: seq<Item>) returns (ps: seq<seq<nat>>)
    ensures Walk(items, Preorder(items), ps)
    decreases SizeAll(items)
  {
    if items == [] {
      ps := [];
    } else {
      ChildrenSmaller(items[0]);
      var below := PreorderWalks(ChildItems(items[0]));
      var after := PreorderWalks(items[1..]);
      ps := [[0]] + Under(below) + Beside(after);
      WalkJoins(items, below, after);
    }
  }

  lemma WalkJoins(items: seq<Item>, below: seq<seq<nat>>, after: seq<seq<nat>>)
    requires items != [] && Walk(ChildItems(items[0]), Preorder(ChildItems(items[0])), below)
    requires Walk(items[1..], Preorder(items[1..]), after)
    ensures Walk(items, Preorder(items), [[0]] + Under(below) + Beside(after))
  {
    ChildrenSmaller(items[0]);
    var xs, ys := Preorder(ChildItems(items[0])), Preorder(items[1..]);
    assert Preorder(items) == [items[0]] + xs + ys;
    hide Preorder, ChildItems, ItemAt, WalkedBefore, Under, Beside;
    NoRoot(ChildItems(items[0]), xs, below);
    NoRoot(items[1..], ys, after);
    AllAtRoot(items);
    AllAtUnder(items, xs, below);
    AllAtBeside(items, ys, after);
    AllAtAppend(items, [items[0]], [[0]], xs, Under(below));
    AllAtAppend(items, [items[0]] + xs, [[0]] + Under(below), ys, Beside(after));
    WalkOrdered(below, after);
    forall p | ItemAt(items, p).Some? ensures p in [[0]] + Under(below) + Beside(after) {
      WalkComplete(items, below, after, p);
    }
    hide AllAt;
  }

  /** The empty path reaches nothing. */
  lemma NoRoot(items: seq<Item>, xs: seq<Item>, ps: seq<seq<nat>>)
    requires AllAt(items, xs, ps)
    ensures forall i :: 0 <= i < |ps| ==> ps[i] != []
  {
  }

  lemma AllAtRoot(items: seq<Item>)
    requires items != []
    ensures AllAt(items, [items[0]], [[0]])
  {
  }

  lemma AllAtUnder(items: seq<Item>, xs: seq<Item>, below: seq<seq<nat>>)
    requires items != [] && AllAt(ChildItems(items[0]), xs, below)
    ensures AllAt(items, xs, Under(below))
  {
    NoRoot(ChildItems(items[0]), xs, below);
    hide ItemAt, ChildItems;
    forall i | 0 <= i < |below| ensures ItemAt(items, Under(below)[i]) == Some(xs[i]) {
      UnderAt(items, below[i]);
    }
  }

  lemma AllAtBeside(items: seq<Item>, ys: seq<Item>, after: seq<seq<nat>>)
    requires items != [] && AllAt(items[1..], ys, after)
    ensures AllAt(items, ys, Beside(after))
  {
    NoRoot(items[1..], ys, after);
    hide ItemAt, Shift;
    forall i | 0 <= i < |after| ensures ItemAt(items, Beside(after)[i]) == Some(ys[i]) {
      BesideAt(items, after[i]);
    }
  }

  lemma AllAtAppend(items: seq<Item>, xs: seq<Item>, ps: seq<seq<nat>>, ys: seq<Item>, qs: seq<seq<nat>>)
    requires AllAt(items, xs, ps) && AllAt(items, ys, qs)
    ensures AllAt(items, xs + ys, ps + qs)
  {
    hide ItemAt;
  }

  lemma OrderedAppend(ps: seq<seq<nat>>, qs: seq<seq<nat>>)
    requires forall i, j :: 0 <= i < j < |ps| ==> WalkedBefore(ps[i], ps[j])
    requires forall i, j :: 0 <= i < j < |qs| ==> WalkedBefore(qs[i], qs[j])
    requires forall i, j :: 0 <= i < |ps| && 0 <= j < |qs| ==> WalkedBefore(ps[i], qs[j])
    ensures forall i, j :: 0 <= i < j < |ps + qs| ==> WalkedBefore((ps + qs)[i], (ps + qs)[j])
  {
    hide WalkedBefore;
  }

  lemma UnderOrdered(below: seq<seq<nat>>)
    requires forall i :: 0 <= i < |below| ==> below[i] != []
    requires forall i, j :: 0 <= i < j < |below| ==> WalkedBefore(below[i], below[j])
    ensures var ps := [[0]] + Under(below);
      forall i, j :: 0 <= i < j < |ps| ==> WalkedBefore(ps[i], ps[j])
  {
    forall j | 0 <= j < |below| ensures WalkedBefore([0], Under(below)[j]) {
      assert Under(below)[j][1..] == below[j] && [0][1..] == [];
    }
    hide WalkedBefore;
    forall i, j | 0 <= i < j < |below| ensures WalkedBefore(Under(below)[i], Under(below)[j]) {
      WalkedPrefixed(0, below[i], below[j]);
    }
    OrderedAppend([[0]], Under(below));
  }

  lemma BesideOrdered(after: seq<seq<nat>>)
    requires forall i :: 0 <= i < |after| ==> after[i] != []
    requires forall i, j :: 0 <= i < j < |after| ==> WalkedBefore(after[i], after[j])
    ensures var ps := Beside(after);
      forall i, j :: 0 <= i < j < |ps| ==> WalkedBefore(ps[i], ps[j])
  {
    hide WalkedBefore, Shift;
    forall i, j | 0 <= i < j < |after| ensures WalkedBefore(Beside(after)[i], Beside(after)[j]) {
      WalkedShifted(after[i], after[j]);
    }
  }

  lemma WalkOrdered(below: seq<seq<nat>>, after: seq<seq<nat>>)
    requires forall i :: 0 <= i < |below| ==> below[i] != []
    requires forall i :: 0 <= i < |after| ==> after[i] != []
    requires forall i, j :: 0 <= i < j < |below| ==> WalkedBefore(below[i], below[j])
    requires forall i, j :: 0 <= i < j < |after| ==> WalkedBefore(after[i], after[j])
    ensures var ps := [[0]] + Under(below) + Beside(after);
      forall i, j :: 0 <= i < j < |ps| ==> WalkedBefore(ps[i], ps[j])
  {
    UnderOrdered(below);
    BesideOrdered(after);
    var ps, qs := [[0]] + Under(below), Beside(after);
    forall i, j | 0 <= i < |ps| && 0 <= j < |qs| ensures WalkedBefore(ps[i], qs[j]) {
      assert ps[i] == (if i == 0 then [0] else [0] + below[i - 1]) && qs[j] == Shift(after[j]);
    }
    OrderedAppend(ps, qs);
  }

  lemma BesideComplete(items: seq<Item>, after: seq<seq<nat>>, p: seq<nat>)
    requires items != [] && p != [] && p[0] > 0 && ItemAt(items, p).Some?
    requires forall q :: ItemAt(items[1..], q).Some? ==> q in after
    ensures p in Beside(after)
  {
    hide ItemAt;
    var q := [p[0] - 1] + p[1..];
    assert Shift(q) == p;
    BesideAt(items, q);
    var i :| 0 <= i < |after| && after[i] == q;
    assert Beside(after)[i] == p;
  }

  lemma UnderComplete(items: seq<Item>, below: seq<seq<nat>>, p: seq<nat>)
    requires items != [] && |p| > 1 && p[0] == 0 && ItemAt(items, p).Some?
    requires forall q :: ItemAt(ChildItems(items[0]), q).Some? ==> q in below
    ensures p in Under(below)
  {
    hide ItemAt, ChildItems;
    assert p == [0] + p[1..];
    UnderAt(items, p[1..]);
    var i :| 0 <= i < |below| && below[i] == p[1..];
    assert Under(below)[i] == p;
  }

  lemma WalkComplete(items: seq<Item>, below: seq<seq<nat>>, after: seq<seq<nat>>, p: seq<nat>)
    requires items != [] && ItemAt(items, p).Some?
    requires forall q :: ItemAt(ChildItems(items[0]), q).Some? ==> q in below
    requires forall q :: ItemAt(items[1..], q).Some? ==> q in after
    ensures p in [[0]] + Under(below) + Beside(after)
  {
    assert p != [];
    hide ItemAt, ChildItems, Under, Beside;
    if p[0] > 0 {
      BesideComplete(items, after, p);
    } else if |p| > 1 {
      UnderComplete(items, below, p);
    } else {
      assert p == [0];
    }
  }

  lemma {:induction false} FindBelowMember(items: seq<Item>, key: string, x: Item)
    ensures x in Named(items, key) || x in FindBelow(items, key)
       <==> x in Preorder(items) && x.name == key
  {
    if items != [] {
      FindBelowMember(items[1..], key, x);
      FindAmongIsNamed(ChildItems(items[0]), key);
      NamedMember(Preorder(ChildItems(items[0])), key, x);
      hide FindAmong, ChildItems;
      assert Preorder(items) == [items[0]] + Preorder(ChildItems(items[0])) + Preorder(items[1..]);
      assert Named(items, key) == (if items[0].name == key then [items[0]] else []) + Named(items[1..], key);
    }
  }

  /** A nested block with a key selects exactly the items, at the same level or
      below, that bear the key. */
  lemma NestedLookup(items: seq<Item>, b: Block, x: Item)
    requires b.nested && b.key != ""
    ensures x in Lookup(items, b) <==> x.name == b.key && exists path :: ItemAt(items, path) == Some(x)
  {
    FindBelowMember(items, b.key, x);
    if x in Preorder(items) {
      var path := PreorderReaches(items, x);
    }
    if path :| ItemAt(items, path) == Some(x) {
      ReachedInPreorder(items, path);
    }
  }

  // -- the evaluator as the source writes it

  /** filterByProperty(): removal through a mutable iterator. */
  method RemoveWithout(items: seq<Item>, name: string, value: Option<string>) returns (kept: seq<Item>)
    ensures kept == WithProperty(items, name, value)
  {
    hide WithProperty, HasProperty;
    kept := items;
    var i := 0;
    assert kept[..0] == [] && kept[0..] == items;
    while i < |kept|
      invariant 0 <= i <= |kept|
      invariant kept[..i] + WithProperty(kept[i..], name, value) == WithProperty(items, name, value)
      decreases |kept| - i
    {
      VisitItem(kept, i, name, value);
      if HasProperty(kept[i], name, value) {
        i := i + 1;
      } else {
        ghost var before := kept;
        kept := kept[..i] + kept[i + 1..];
        assert kept[..i] == before[..i] && kept[i..] == before[i + 1..];
      }
    }
    assert kept[..i] == kept && kept[i..] == [];
    assert WithProperty([], name, value) == [] by { NothingToFilter(name, value); }
  }

  lemma NothingToFilter(name: string, value: Option<string>)
    ensures WithProperty([], name, value) == []
  {
  }

  /** One turn of the iterator: the item at i stays in front or goes. */
  lemma VisitItem(kept: seq<Item>, i: nat, name: string, value: Option<string>)
    requires i < |kept|
    ensures kept[..i] + WithProperty(kept[i..], name, value) ==
      if HasProperty(kept[i], name, value) then kept[..i + 1] + WithProperty(kept[i + 1..], name, value)
      else kept[..i] + WithProperty(kept[i + 1..], name, value)
  {
    hide HasProperty;
    var rest := WithProperty(kept[i + 1..], name, value);
    assert kept[i..][0] == kept[i] && kept[i..][1..] == kept[i + 1..];
    if HasProperty(kept[i], name, value) {
      assert kept[..i] + ([kept[i]] + rest) == kept[..i + 1] + rest;
    } else {
      assert [] + rest == rest;
    }
  }

  /** The selection part of evaluateItems(). */
  method SelectItems(items: seq<Item>, b: Block) returns (results: seq<Item>)
    ensures results == Select(items, b)
  {
    results := LookupItems(items, b);
    hide Lookup;
    for k := 0 to |b.filters|
      invariant ApplyFilters(results, b.filters[k..]) == Select(items, b)
    {
      assert b.filters[k..][0] == b.filters[k] && b.filters[k..][1..] == b.filters[k + 1..];
      match b.filters[k] {
        case Index(n) => results := if n < |results| then [results[n]] else [];
        case Property(name, value) => results := RemoveWithout(results, name, value);
      }
    }
    assert b.filters[|b.filters|..] == [];
  }

  method LookupItems(items: seq<Item>, b: Block) returns (results: seq<Item>)
    ensures results == Lookup(items, b)
  {
    hide FindItems;
    if b.key == "" {
      return items;
    }
    results := [];
    for k := 0 to |items|
      invariant results + Named(items[k..], b.key) == Named(items, b.key)
    {
      assert items[k..][0] == items[k] && items[k..][1..] == items[k + 1..];
      if items[k].name == b.key {
        results := results + [items[k]];
      }
    }
    assert items[|items|..] == [] && results == Named(items, b.key);
    if b.nested {
      var found := [];
      for k := 0 to |items|
        invariant found + FindBelow(items[k..], b.key) == FindBelow(items, b.key)
      {
        assert items[k..][0] == items[k] && items[k..][1..] == items[k + 1..];
        found := found + FindItems(items[k], b.key);
      }
      assert found == FindBelow(items, b.key);
      results := results + found;
    }
  }

  /** evaluateItems(): tries the selected items in turn. */
  method EvaluateItems(current: Option<Item>, items: seq<Item>, blocks: seq<Block>) returns (r: Option<Item>)
    ensures r == Evaluate(current, items, blocks)
    decreases |blocks|
  {
    hide Select;
    if blocks == [] {
      return current;
    }
    if items == [] {
      return None;
    }
    var results := SelectItems(items, blocks[0]);
    for k := 0 to |results|
      invariant FirstOf(results[k..], blocks[1..]) == FirstOf(results, blocks[1..])
    {
      assert results[k..][0] == results[k] && results[k..][1..] == results[k + 1..];
      r := EvaluateItems(Some(results[k]), ChildItems(results[k]), blocks[1..]);
      if r.Some? {
        return;
      }
    }
    r := None;
  }
}
