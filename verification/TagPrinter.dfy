/** Tags as people write them, and what the parser reads in them. */
module TagPrinter {
  import opened Wrappers
  import opened TagParser
  import opened Text

  // ----- written calls ------------------------------------------------------------------------

  /** A call as it is written: a name, or a name and the text of a parameter behind
      an equals sign, with white space anywhere around them. */
  datatype Item =
    | Bare(name: string, left: string, right: string)
    | WithParam(name: string, text: string, left: string, beforeEq: string, afterEq: string, right: string)

  function Core(item: Item): string {
    match item
    case Bare(name, _, _) => name
    case WithParam(name, text, _, beforeEq, afterEq, _) => name + (beforeEq + ("=" + (afterEq + text)))
  }

  function Write(item: Item): Segment {
    Segment(item.left + Core(item) + item.right)
  }

  predicate AllSpace(s: string) {
    forall i :: 0 <= i < |s| ==> IsSpace(s[i])
  }

  predicate PlainName(name: string) {
    Trimmed(name) && QUOTE !in name && ',' !in name && '=' !in name
  }

  /** Parameter text that stays together: its quotes are closed and no comma is
      outside them. */
  predicate Together(text: string) {
    !OddQuotes(text) && FirstOutside(text, ',', 0) == -1
  }

  predicate Legible(item: Item) {
    && PlainName(item.name) && AllSpace(item.left) && AllSpace(item.right)
    && (item.WithParam? ==>
          && AllSpace(item.beforeEq) && AllSpace(item.afterEq) && Together(item.text)
          && (if item.text == "" then item.afterEq == "" else Trimmed(item.text)))
  }

  /** What parameter text means: quotes around the whole are taken off; text that is
      not quoted at both ends stays as it is. */
  ghost predicate IsParam(text: string, param: string) {
    if |text| >= 2 && text[0] == QUOTE == text[|text| - 1] then text == [QUOTE] + param + [QUOTE] else text == param
  }

  ghost predicate Means(item: Item, call: RuleCall) {
    item.name == call.name && if item.Bare? then call.param == "" else IsParam(item.text, call.param)
  }

  // ----- white space ----------------------------------------------------------------------------

  lemma {:induction false} TrimPads(left: string, core: string, right: string)
    requires AllSpace(left) && AllSpace(right) && (core == "" || Trimmed(core))
    ensures Trim(left + core + right) == core
  {
    var s := left + core + right;
    if core == "" {
      assert AllSpace(s);
      TrimLeftSpace(s, "");
      assert s + "" == s;
    } else {
      TrimLeftSpace(left, core + right);
      assert s == left + (core + right);
      TrimRightSpace(core, right);
    }
  }

  lemma {:induction false} TrimLeftSpace(space: string, rest: string)
    requires AllSpace(space) && (rest != "" ==> !IsSpace(rest[0]))
    ensures TrimLeft(space + rest) == rest
  {
    if space == "" {
      assert space + rest == rest;
    } else {
      assert (space + rest)[1..] == space[1..] + rest;
      TrimLeftSpace(space[1..], rest);
    }
  }

  lemma {:induction false} TrimRightSpace(rest: string, space: string)
    requires AllSpace(space) && (rest != "" ==> !IsSpace(rest[|rest| - 1]))
    ensures TrimRight(rest + space) == rest
  {
    var s := rest + space;
    if space == "" {
      assert s == rest;
    } else {
      assert s[..|s| - 1] == rest + space[..|space| - 1];
      TrimRightSpace(rest, space[..|space| - 1]);
    }
  }

  // ----- quotes and commas ----------------------------------------------------------------------

  predicate Neutral(s: string) {
    QUOTE !in s && ',' !in s
  }

  lemma SpaceIsNeutral(s: string)
    requires AllSpace(s)
    ensures Neutral(s) && '=' !in s
  {
  }

  lemma {:induction false} NoQuotesIsEven(s: string)
    requires QUOTE !in s
    ensures !OddQuotes(s)
  {
    if s != "" {
      NoQuotesIsEven(s[..|s| - 1]);
    }
  }

  /** Neutral text around text that stays together stays together with it. */
  lemma TogetherWith(a: string, text: string, b: string)
    requires Neutral(a) && Neutral(b) && Together(text)
    ensures Together(a + text + b)
  {
    var s := a + text + b;
    NoQuotesIsEven(a);
    NoQuotesIsEven(b);
    OddQuotesOfSum(a + text, b);
    OddQuotesOfSum(a, text);
    NoneFound(text);
    forall i | 0 <= i < |s| && s[i] == ','
      ensures OddQuotes(s[..i])
    {
      CommaIsInside(a, text, b, i);
    }
    NoneFound(s);
  }

  lemma CommaIsInside(a: string, text: string, b: string, i: nat)
    requires Neutral(a) && Neutral(b) && i < |a + text + b| && (a + text + b)[i] == ','
    requires forall k :: 0 <= k < |text| && text[k] == ',' ==> OddQuotes(text[..k])
    ensures OddQuotes((a + text + b)[..i])
  {
    var s, k := a + text + b, i - |a|;
    assert forall j :: 0 <= j < |a| ==> s[j] == a[j] && a[j] in a;
    assert forall j :: 0 <= j < |b| ==> s[|a| + |text| + j] == b[j] && b[j] in b;
    NotInTheTail(a, text, b, i);
    assert 0 <= k < |text| && text[k] == ',';
    assert s[..i] == a + text[..k];
    NoQuotesIsEven(a);
    OddQuotesOfSum(a, text[..k]);
  }

  lemma NotInTheTail(a: string, text: string, b: string, i: nat)
    requires ',' !in b && i < |a + text + b| && (a + text + b)[i] == ','
    ensures i < |a| + |text|
  {
  }

  lemma WrittenTogether(item: Item)
    requires Legible(item)
    ensures Together(Write(item).text) && Together(Core(item))
  {
    SpaceIsNeutral(item.left);
    SpaceIsNeutral(item.right);
    NothingTogether();
    match item
    case Bare(name, left, right) =>
      TogetherWith(name, "", "");
      assert name + "" + "" == name;
      TogetherWith(left, name, right);
    case WithParam(name, text, left, beforeEq, afterEq, right) =>
      SpaceIsNeutral(beforeEq);
      SpaceIsNeutral(afterEq);
      var head := name + (beforeEq + ("=" + afterEq));
      TogetherWith(head, text, "");
      assert Core(item) == head + text + "";
      TogetherWith(left, Core(item), right);
  }

  lemma NothingTogether()
    ensures Together("")
  {
  }

  // ----- one call is read back ------------------------------------------------------------------

  lemma CoreIsTrimmed(item: Item)
    requires Legible(item)
    ensures Trimmed(Core(item)) && Trim(Write(item).text) == Core(item)
  {
    var core := Core(item);
    assert core[0] == item.name[0];
    if item.WithParam? {
      assert core[|core| - 1] == if item.text == "" then '=' else item.text[|item.text| - 1];
    }
    TrimPads(item.left, core, item.right);
  }

  lemma EqualsAfterName(head: string, rest: string)
    requires QUOTE !in head && '=' !in head
    ensures FirstOutside(head + ("=" + rest), '=', 0) == |head|
  {
    var s := head + ("=" + rest);
    assert s[..|head|] == head;
    NoQuotesIsEven(head);
    assert Found(s, '=', |head|);
    assert forall j :: 0 <= j < |head| ==> s[j] == head[j];
  }

  lemma NoEquals(s: string)
    requires '=' !in s
    ensures FirstOutside(s, '=', 0) == -1
  {
  }

  lemma CallIsReadBack(item: Item, call: RuleCall)
    requires Legible(item) && Means(item, call)
    ensures !Faulty(Write(item)) && CallOf(Write(item)) == Some(call)
  {
    CoreIsTrimmed(item);
    match item
    case Bare(name, _, _) =>
      NoEquals(name);
      TrimIsName(name, "");
      hide FirstOutside, Trim, OddQuotes;
    case WithParam(_, _, _, _, _, _) => ParamIsReadBack(item, call);
  }

  lemma ParamIsReadBack(item: Item, call: RuleCall)
    requires Legible(item) && Means(item, call) && item.WithParam? && Trim(Write(item).text) == Core(item)
    ensures !Faulty(Write(item)) && CallOf(Write(item)) == Some(call)
  {
    hide FirstOutside, Trim, OddQuotes, Write;
    var raw, head, rest := Core(item), item.name + item.beforeEq, item.afterEq + item.text;
    SpaceIsNeutral(item.beforeEq);
    assert raw == head + ("=" + rest);
    EqualsAfterName(head, rest);
    assert raw[..|head|] == head && raw[|head| + 1..] == rest;
    TrimIsName(item.name, item.beforeEq);
    TrimIsText(item.afterEq, item.text);
    UnquotedIs(item.text, call.param);
    hide Core, IsParam, AllSpace;
  }

  lemma UnquotedIs(text: string, param: string)
    requires IsParam(text, param)
    ensures Unquote(text) == param
  {
    if |text| >= 2 && text[0] == QUOTE == text[|text| - 1] {
      assert text[1..|text| - 1] == param;
    }
  }

  lemma TrimIsName(name: string, space: string)
    requires Trimmed(name) && AllSpace(space)
    ensures Trim(name + space) == name && Trim(name) == name
  {
    TrimPads("", name, space);
    TrimPads("", name, "");
    assert "" + name + space == name + space && "" + name + "" == name;
  }

  lemma TrimIsText(space: string, text: string)
    requires AllSpace(space) && (text == "" || Trimmed(text))
    ensures Trim(space + text) == text
  {
    TrimPads(space, text, "");
    assert space + text + "" == space + text;
  }

  // ----- whole tags --------------------------------------------------------------------------------

  function WriteAll(items: seq<Item>): seq<Segment> {
    seq(|items|, i requires 0 <= i < |items| => Write(items[i]))
  }

  ghost predicate AllLegible(items: seq<Item>) {
    forall i :: 0 <= i < |items| ==> Legible(items[i])
  }

  ghost predicate AllMean(items: seq<Item>, calls: seq<RuleCall>) {
    |items| == |calls| && forall i :: 0 <= i < |items| ==> Means(items[i], calls[i])
  }

  lemma {:induction false} CallsAreReadBack(items: seq<Item>, calls: seq<RuleCall>)
    requires AllLegible(items) && AllMean(items, calls)
    ensures CallsOf(WriteAll(items)) == Some(calls)
  {
    hide CallOf, Faulty, Write, Legible, Means;
    if items != [] {
      var n := |items| - 1;
      CallsAreReadBack(items[..n], calls[..n]);
      CallIsReadBack(items[n], calls[n]);
      assert WriteAll(items)[..n] == WriteAll(items[..n]);
      assert calls[..n] + [calls[n]] == calls;
    }
  }

  lemma {:induction false} JoinRight(init: seq<Segment>, last: string, right: string)
    ensures JoinCommas(init + [Segment(last + right)]) == JoinCommas(init + [Segment(last)]) + right
    ensures init != [] ==> JoinCommas(init + [Segment("")]) == JoinCommas(init) + ","
  {
    if init != [] {
      JoinRight(init[1..], last, right);
      assert (init + [Segment(last + right)])[1..] == init[1..] + [Segment(last + right)];
      assert (init + [Segment(last)])[1..] == init[1..] + [Segment(last)];
      assert (init + [Segment("")])[1..] == init[1..] + [Segment("")];
    }
  }

  lemma JoinLeft(left: string, first: string, rest: seq<Segment>)
    ensures JoinCommas([Segment(left + first)] + rest) == left + JoinCommas([Segment(first)] + rest)
  {
    assert ([Segment(left + first)] + rest)[1..] == rest && ([Segment(first)] + rest)[1..] == rest;
  }

  /** Joined text begins as the first segment and ends as the last. */
  lemma {:induction false} JoinEnds(segments: seq<Segment>)
    requires segments != [] && segments[0].text != "" && segments[|segments| - 1].text != ""
    ensures var s, last := JoinCommas(segments), segments[|segments| - 1].text;
            s != "" && s[0] == segments[0].text[0] && s[|s| - 1] == last[|last| - 1]
  {
    var n := |segments| - 1;
    var last := segments[n].text;
    assert last == last[..|last| - 1] + [last[|last| - 1]];
    JoinRight(segments[..n], last[..|last| - 1], [last[|last| - 1]]);
    assert segments == segments[..n] + [Segment(last[..|last| - 1] + [last[|last| - 1]])];
    var first := segments[0].text;
    assert first == [first[0]] + first[1..];
    JoinLeft([first[0]], first[1..], segments[1..]);
    assert segments == [Segment([first[0]] + first[1..])] + segments[1..];
  }

  lemma {:induction false} JoinIsEven(segments: seq<Segment>)
    requires forall i :: 0 <= i < |segments| ==> !OddQuotes(segments[i].text)
    ensures !OddQuotes(JoinCommas(segments))
  {
    if |segments| > 1 {
      var first, rest := segments[0].text, JoinCommas(segments[1..]);
      JoinIsEven(segments[1..]);
      OddQuotesOfSum(first + ",", rest);
      OddQuotesOfSum(first, ",");
      NoQuotesIsEven(",");
    }
  }

  /** A tag without white space at its ends, perhaps with a comma at its end. */
  lemma TrimmedTagIsRead(items: seq<Item>, calls: seq<RuleCall>, comma: bool)
    requires items != [] && AllLegible(items) && AllMean(items, calls)
    requires items[0].left == "" && (comma || items[|items| - 1].right == "")
    ensures var tag := JoinCommas(WriteAll(items)) + if comma then "," else "";
            Trimmed(tag) && Parsed(tag) == Some(calls)
  {
    hide Trim, Write, OddQuotes, FirstOutside, Legible, Means, Segments, CallsOf, Trimmed, JoinCommas;
    var written := WriteAll(items);
    var segments := written + if comma then [Segment("")] else [];
    var tag := JoinCommas(written) + if comma then "," else "";
    TagIsTrimmed(items, comma);
    TrimTrimmed(tag);
    forall i | 0 <= i < |segments|
      ensures Together(segments[i].text)
    {
      NothingTogether();
      if i < |items| {
        WrittenTogether(items[i]);
      }
    }
    JoinRight(written, "", "");
    if !comma {
      assert segments == written && JoinCommas(written) + "" == JoinCommas(written);
    }
    JoinIsEven(segments);
    CutIsDetermined(tag, segments);
    LastIsKept(items, calls, comma);
    CallsAreReadBack(items, calls);
  }

  lemma TrimTrimmed(s: string)
    requires Trimmed(s)
    ensures Trim(s) == s && s != ""
  {
    TrimPads("", s, "");
    assert "" + s + "" == s;
  }

  lemma LastIsKept(items: seq<Item>, calls: seq<RuleCall>, comma: bool)
    requires items != [] && AllLegible(items) && AllMean(items, calls)
    ensures var written := WriteAll(items);
            WithoutBlankEnd(written + if comma then [Segment("")] else []) == written
  {
    var written := WriteAll(items);
    CallIsReadBack(items[|items| - 1], calls[|items| - 1]);
    assert written + [] == written && (written + [Segment("")])[..|written|] == written;
    assert Blank(Segment(""));
    hide Write, Trim, CallOf;
  }

  lemma TagIsTrimmed(items: seq<Item>, comma: bool)
    requires items != [] && AllLegible(items)
    requires items[0].left == "" && (comma || items[|items| - 1].right == "")
    ensures Trimmed(JoinCommas(WriteAll(items)) + if comma then "," else "")
  {
    hide Write, Legible, JoinCommas;
    ItemEnds(items[0]);
    ItemEnds(items[|items| - 1]);
    var s := JoinCommas(WriteAll(items));
    JoinEnds(WriteAll(items));
    if comma {
      assert (s + ",")[0] == s[0] && (s + ",")[|s + ","| - 1] == ',';
    } else {
      assert s + "" == s;
    }
  }

  lemma ItemEnds(item: Item)
    requires Legible(item)
    ensures var text := Write(item).text;
            && text != ""
            && (item.left == "" ==> !IsSpace(text[0]))
            && (item.right == "" ==> !IsSpace(text[|text| - 1]))
  {
    CoreIsTrimmed(item);
    hide Core, Trim;
  }

  /** The parser reads what people write: for every list of calls, each written with
      or without a parameter, in quotes or not, with white space anywhere around
      names, equals signs, parameters and commas, and perhaps with a comma at the
      end, it gives back the calls. */
  lemma WrittenTagIsRead(items: seq<Item>, calls: seq<RuleCall>, comma: bool, left: string, right: string)
    requires AllLegible(items) && AllMean(items, calls) && AllSpace(left) && AllSpace(right)
    requires items != [] ==> items[0].left == "" && (comma || items[|items| - 1].right == "")
    requires comma ==> items != []
    ensures Parsed(left + (JoinCommas(WriteAll(items)) + if comma then "," else "") + right) == Some(calls)
  {
    var tag := JoinCommas(WriteAll(items)) + if comma then "," else "";
    if items == [] {
      assert tag == "" + "" == "";
      TrimPads(left, "", right);
    } else {
      TrimmedTagIsRead(items, calls, comma);
      TrimPads(left, tag, right);
      TrimPads("", tag, "");
      assert "" + tag + "" == tag;
    }
  }

  // ----- a canonical form ----------------------------------------------------------------------------

  predicate Printable(c: RuleCall) {
    PlainName(c.name) && QUOTE !in c.param
  }

  /** `name`, or `name='param'` when there is a parameter. */
  function ItemOf(c: RuleCall): Item {
    if c.param == "" then Bare(c.name, "", "")
    else WithParam(c.name, [QUOTE] + c.param + [QUOTE], "", "", "", "")
  }

  function ItemsOf(calls: seq<RuleCall>): seq<Item> {
    seq(|calls|, i requires 0 <= i < |calls| => ItemOf(calls[i]))
  }

  function Print(calls: seq<RuleCall>): string {
    JoinCommas(WriteAll(ItemsOf(calls)))
  }

  lemma QuotedIsTogether(param: string)
    requires QUOTE !in param
    ensures Together([QUOTE] + param + [QUOTE])
  {
    var text := [QUOTE] + param + [QUOTE];
    NoQuotesIsEven(param);
    OddQuotesOfSum([QUOTE] + param, [QUOTE]);
    OddQuotesOfSum([QUOTE], param);
    forall i | 0 <= i < |text| && text[i] == ','
      ensures OddQuotes(text[..i])
    {
      var inside := param[..i - 1];
      assert text[..i] == [QUOTE] + inside;
      NoQuotesIsEven(inside);
      OddQuotesOfSum([QUOTE], inside);
    }
    NoneFound(text);
  }

  lemma ItemOfMeans(c: RuleCall)
    requires Printable(c)
    ensures Legible(ItemOf(c)) && Means(ItemOf(c), c) && ItemOf(c).left == "" == ItemOf(c).right
  {
    QuotedIsTogether(c.param);
  }

  /** The parser undoes the printer: every list of calls with plain names and
      parameters free of quotes is read back from its printed form. */
  lemma ParserUndoesPrinter(calls: seq<RuleCall>)
    requires forall i :: 0 <= i < |calls| ==> Printable(calls[i])
    ensures Parsed(Print(calls)) == Some(calls)
  {
    hide Legible, Means, Parsed, JoinCommas, Write, ItemOf, Printable;
    var items := ItemsOf(calls);
    forall i | 0 <= i < |calls|
      ensures Legible(items[i]) && Means(items[i], calls[i]) && items[i].left == "" == items[i].right
    {
      ItemOfMeans(calls[i]);
    }
    WrittenTagIsRead(items, calls, false, "", "");
    var tag := Print(calls);
    assert "" + (tag + "") + "" == tag;
  }

  /** A list of calls whose parameters are written without quotes, such as
      `required,email,max=255`, where an equals sign in a parameter is part of it. */
  lemma BareParametersAreRead(calls: seq<RuleCall>)
    requires forall i :: 0 <= i < |calls| ==>
               PlainName(calls[i].name) && Neutral(calls[i].param) && (calls[i].param == "" || Trimmed(calls[i].param))
    ensures Parsed(JoinCommas(BareForms(calls))) == Some(calls)
  {
    hide Legible, Means, Parsed, JoinCommas, Write;
    var items := BareItems(calls);
    forall i | 0 <= i < |calls|
      ensures Legible(items[i]) && Means(items[i], calls[i]) && WriteAll(items)[i] == BareForms(calls)[i]
    {
      BareItemMeans(calls[i]);
    }
    assert WriteAll(items) == BareForms(calls);
    WrittenTagIsRead(items, calls, false, "", "");
    var tag := JoinCommas(WriteAll(items));
    assert "" + (tag + "") + "" == tag;
  }

  function BareForms(calls: seq<RuleCall>): seq<Segment> {
    seq(|calls|, i requires 0 <= i < |calls| =>
      Segment(if calls[i].param == "" then calls[i].name else calls[i].name + "=" + calls[i].param))
  }

  function BareItem(c: RuleCall): Item {
    if c.param == "" then Bare(c.name, "", "") else WithParam(c.name, c.param, "", "", "", "")
  }

  function BareItems(calls: seq<RuleCall>): seq<Item> {
    seq(|calls|, i requires 0 <= i < |calls| => BareItem(calls[i]))
  }

  lemma BareItemMeans(c: RuleCall)
    requires PlainName(c.name) && Neutral(c.param) && (c.param == "" || Trimmed(c.param))
    ensures Legible(BareItem(c)) && Means(BareItem(c), c)
    ensures Write(BareItem(c)).text == if c.param == "" then c.name else c.name + "=" + c.param
  {
    NothingTogether();
    TogetherWith(c.param, "", "");
    assert c.param + "" + "" == c.param;
    if c.param != "" {
      assert c.param[0] in c.param;
    }
  }
}
