/**
 The parser of `validate` tags: rule calls `name` or `name=param`, separated by
 commas, where single quotes protect commas and equals signs.
 */
module TagParser {
  import opened Wrappers
  import opened Text

  datatype RuleCall = RuleCall(name: string, param: string)

  const QUOTE: char := '\''

  // ----- quotes ---------------------------------------------------------------------------

  /** An odd number of quotes: at its end the string is inside quotes. */
  predicate OddQuotes(s: string) {
    s != "" && (s[|s| - 1] == QUOTE) != OddQuotes(s[..|s| - 1])
  }

  /** Position i holds the target, outside quotes; a quote is never outside. */
  predicate Found(s: string, target: char, i: nat) {
    i < |s| && s[i] == target && s[i] != QUOTE && !OddQuotes(s[..i])
  }

  /** First position from i on that holds the target outside quotes, or -1. */
  function FirstOutside(s: string, target: char, i: nat): (r: int)
    requires i <= |s|
    ensures r >= 0 ==> i <= r && Found(s, target, r) && forall j :: i <= j < r ==> !Found(s, target, j)
    ensures r < 0 ==> r == -1 && forall j :: i <= j < |s| ==> !Found(s, target, j)
    decreases |s| - i
  {
    if i == |s| then -1
    else if Found(s, target, i) then i
    else FirstOutside(s, target, i + 1)
  }

  lemma OddQuotesStep(s: string, i: nat)
    requires i < |s|
    ensures OddQuotes(s[..i + 1]) == if s[i] == QUOTE then !OddQuotes(s[..i]) else OddQuotes(s[..i])
  {
    assert s[..i + 1][..i] == s[..i];
  }

  lemma {:induction false} OddQuotesOfSum(a: string, b: string)
    ensures OddQuotes(a + b) == (OddQuotes(a) != OddQuotes(b))
  {
    if b == "" {
      assert a + b == a;
    } else {
      OddQuotesOfSum(a, b[..|b| - 1]);
      assert (a + b)[..|a + b| - 1] == a + b[..|b| - 1];
    }
  }

  /** The loop of indexOutsideQuotes. */
  method IndexOutsideQuotes(s: string, target: char) returns (r: int)
    ensures r == FirstOutside(s, target, 0)
  {
    var inQuotes := false;
    for i := 0 to |s|
      invariant inQuotes == OddQuotes(s[..i])
      invariant FirstOutside(s, target, 0) == FirstOutside(s, target, i)
    {
      OddQuotesStep(s, i);
      if s[i] == QUOTE {
        inQuotes := !inQuotes;
      } else if !inQuotes && s[i] == target {
        return i;
      }
    }
    return -1;
  }

  function Unquote(s: string): string {
    if |s| >= 2 && s[0] == QUOTE && s[|s| - 1] == QUOTE then s[1..|s| - 1] else s
  }

  // ----- segments ---------------------------------------------------------------------------

  datatype Segment = Segment(text: string)

  function Glue(s: string, segments: seq<Segment>): (r: seq<Segment>)
    requires segments != []
    ensures r != []
  {
    [Segment(s + segments[0].text)] + segments[1..]
  }

  /** The text between commas outside quotes; q says whether s starts in quotes. */
  function Segments(s: string, q: bool): (r: seq<Segment>)
    ensures r != []
    decreases s
  {
    if s == "" then [Segment("")]
    else if s[0] == ',' && !q then [Segment("")] + Segments(s[1..], q)
    else Glue([s[0]], Segments(s[1..], if s[0] == QUOTE then !q else q))
  }

  predicate Blank(segment: Segment) {
    Trim(segment.text) == ""
  }

  /** The call in a segment; None if the rule name is blank. */
  function CallOf(segment: Segment): Option<RuleCall> {
    var raw := Trim(segment.text);
    var eq := FirstOutside(raw, '=', 0);
    var call := if eq < 0 then RuleCall(Trim(raw), "")
                else RuleCall(Trim(raw[..eq]), Unquote(Trim(raw[eq + 1..])));
    if call.name == "" then None else Some(call)
  }

  predicate Faulty(segment: Segment) {
    Blank(segment) || CallOf(segment).None?
  }

  /** The calls of segments, unless one of them is faulty. */
  function CallsOf(segments: seq<Segment>): Option<seq<RuleCall>> {
    if segments == [] then Some([])
    else
      var last := segments[|segments| - 1];
      match CallsOf(segments[..|segments| - 1])
      case None => None
      case Some(calls) => if Faulty(last) then None else Some(calls + [CallOf(last).value])
  }

  function WithoutBlankEnd(segments: seq<Segment>): seq<Segment>
    requires segments != []
  {
    if Blank(segments[|segments| - 1]) then segments[..|segments| - 1] else segments
  }

  /** The meaning of a tag, by its quotes and segments. */
  function Parsed(tag: string): Option<seq<RuleCall>> {
    var t := Trim(tag);
    if t == "" then Some([])
    else if OddQuotes(t) then None
    else CallsOf(WithoutBlankEnd(Segments(t, false)))
  }

  lemma {:induction false} CallsFailExactly(segments: seq<Segment>)
    ensures CallsOf(segments).None? <==> exists i :: 0 <= i < |segments| && Faulty(segments[i])
  {
    hide Faulty, CallOf;
    if segments != [] {
      var init, last := segments[..|segments| - 1], |segments| - 1;
      CallsFailExactly(init);
      if CallsOf(init).None? {
        var i :| 0 <= i < |init| && Faulty(init[i]);
        assert Faulty(segments[i]);
      }
    }
  }

  predicate BlankBeforeEnd(segments: seq<Segment>) {
    exists i :: 0 <= i < |segments| - 1 && Blank(segments[i])
  }

  predicate NamelessSegment(segments: seq<Segment>) {
    exists i :: 0 <= i < |segments| && !Blank(segments[i]) && CallOf(segments[i]).None?
  }

  lemma KeptFailsExactly(segments: seq<Segment>)
    requires segments != []
    ensures CallsOf(WithoutBlankEnd(segments)).None? <==> BlankBeforeEnd(segments) || NamelessSegment(segments)
  {
    hide CallOf, Blank, CallsOf;
    var kept := WithoutBlankEnd(segments);
    CallsFailExactly(kept);
    if i :| 0 <= i < |kept| && Faulty(kept[i]) {
      assert segments[i] == kept[i];
      assert Blank(segments[i]) ==> i < |segments| - 1;
    }
    if i :| 0 <= i < |segments| - 1 && Blank(segments[i]) {
      assert Faulty(kept[i]);
    }
    if i :| 0 <= i < |segments| && !Blank(segments[i]) && CallOf(segments[i]).None? {
      assert Faulty(kept[i]);
    }
  }

  /** Parsing fails exactly on an odd number of quotes, on a blank segment other
      than the last, and on a segment whose rule name is blank. */
  lemma ParsingFailsExactly(tag: string)
    requires Trim(tag) != ""
    ensures var segments := Segments(Trim(tag), false);
            Parsed(tag).None? <==>
              OddQuotes(Trim(tag)) || BlankBeforeEnd(segments) || NamelessSegment(segments)
  {
    KeptFailsExactly(Segments(Trim(tag), false));
  }

  function JoinCommas(segments: seq<Segment>): string {
    if segments == [] then ""
    else if |segments| == 1 then segments[0].text
    else segments[0].text + "," + JoinCommas(segments[1..])
  }

  lemma JoinGlue(s: string, segments: seq<Segment>)
    requires segments != []
    ensures JoinCommas(Glue(s, segments)) == s + JoinCommas(segments)
    ensures JoinCommas([Segment("")] + segments) == "," + JoinCommas(segments)
  {
  }

  /** The segments are the tag, cut at commas. */
  lemma {:induction false} SegmentsRebuild(s: string, q: bool)
    ensures JoinCommas(Segments(s, q)) == s
    decreases s
  {
    hide JoinCommas, Glue;
    if s == "" {
      JoinOne(Segment(""));
    } else {
      var q' := if s[0] == QUOTE then !q else q;
      SegmentsRebuild(s[1..], q');
      JoinGlue([s[0]], Segments(s[1..], q'));
      assert [s[0]] + s[1..] == s;
    }
  }

  lemma JoinOne(segment: Segment)
    ensures JoinCommas([segment]) == segment.text
  {
  }

  // ----- the cut is determined ------------------------------------------------------------------

  /** No comma of the text is outside quotes, if it starts in quotes as q says. */
  predicate Uncut(text: string, q: bool) {
    text == ""
    || (!(text[0] == ',' && !q) && Uncut(text[1..], if text[0] == QUOTE then !q else q))
  }

  /** Whether the text ends in quotes. */
  predicate EndsQuoted(text: string, q: bool) {
    if text == "" then q else EndsQuoted(text[1..], if text[0] == QUOTE then !q else q)
  }

  predicate CleanCut(segments: seq<Segment>, q: bool)
    requires segments != []
  {
    && Uncut(segments[0].text, q)
    && (|segments| > 1 ==> !EndsQuoted(segments[0].text, q) && CleanCut(segments[1..], false))
  }

  lemma {:induction false} SegmentsAreClean(s: string, q: bool)
    ensures CleanCut(Segments(s, q), q)
    decreases s
  {
    if s != "" {
      var q' := if s[0] == QUOTE then !q else q;
      var rest := Segments(s[1..], q');
      SegmentsAreClean(s[1..], q');
      if s[0] == ',' && !q {
        assert ([Segment("")] + rest)[1..] == rest;
      } else {
        var glued := Glue([s[0]], rest);
        assert glued[0].text[0] == s[0] && glued[0].text[1..] == rest[0].text && glued[1..] == rest[1..];
      }
    }
  }

  lemma GlueEmpty(segments: seq<Segment>)
    requires segments != []
    ensures Glue("", segments) == segments
  {
    assert "" + segments[0].text == segments[0].text;
  }

  lemma GlueFirst(s: string, segments: seq<Segment>)
    ensures Glue(s, [Segment("")] + segments) == [Segment(s)] + segments
  {
    assert s + "" == s;
    assert ([Segment("")] + segments)[1..] == segments;
  }

  lemma GlueGlue(a: string, b: string, segments: seq<Segment>)
    requires segments != []
    ensures Glue(a, Glue(b, segments)) == Glue(a + b, segments)
  {
    assert a + (b + segments[0].text) == a + b + segments[0].text;
  }

  /** Uncut text stays in one segment. */
  lemma {:induction false} UncutText(text: string, rest: string, q: bool)
    requires Uncut(text, q)
    ensures Segments(text + rest, q) == Glue(text, Segments(rest, EndsQuoted(text, q)))
    decreases text
  {
    hide Glue;
    if text == "" {
      assert text + rest == rest;
      GlueEmpty(Segments(rest, q));
    } else {
      var first, more := [text[0]], text[1..];
      var q' := if text[0] == QUOTE then !q else q;
      FirstStays(text[0], more + rest, q);
      assert text + rest == first + (more + rest) && first + more == text;
      hide Segments;
      UncutText(more, rest, q');
      GlueGlue(first, more, Segments(rest, EndsQuoted(text, q)));
    }
  }

  lemma FirstStays(c: char, rest: string, q: bool)
    requires !(c == ',' && !q)
    ensures Segments([c] + rest, q) == Glue([c], Segments(rest, if c == QUOTE then !q else q))
  {
  }

  lemma CommaSplits(rest: string)
    ensures Segments("," + rest, false) == [Segment("")] + Segments(rest, false)
    ensures Segments("", false) == [Segment("")] && Segments("", true) == [Segment("")]
  {
  }

  lemma {:induction false} CleanCutIsFound(segments: seq<Segment>, q: bool)
    requires segments != [] && CleanCut(segments, q)
    ensures Segments(JoinCommas(segments), q) == segments
    decreases |segments|
  {
    hide Segments, Glue, Uncut;
    var first := segments[0].text;
    if |segments| == 1 {
      UncutText(first, "", q);
      CommaSplits("");
      assert first + "" == first && segments == [Segment(first)] + [] && [Segment("")] + [] == [Segment("")];
      GlueFirst(first, []);
    } else {
      var rest := JoinCommas(segments[1..]);
      CleanCutIsFound(segments[1..], false);
      UncutText(first, "," + rest, q);
      CommaSplits(rest);
      assert first + "," + rest == first + ("," + rest) && segments == [Segment(first)] + segments[1..];
      GlueFirst(first, segments[1..]);
    }
  }

  /** Quotes counted from the front and from the back. */
  lemma {:induction false} UncutIff(text: string, q: bool)
    ensures EndsQuoted(text, q) == (OddQuotes(text) != q)
    ensures Uncut(text, q) <==> forall i :: 0 <= i < |text| && text[i] == ',' ==> OddQuotes(text[..i]) != q
    decreases text
  {
    if text != "" {
      var first, rest := [text[0]], text[1..];
      var q' := if text[0] == QUOTE then !q else q;
      UncutIff(rest, q');
      assert text == first + rest && OddQuotes(first) == (text[0] == QUOTE);
      OddQuotesOfSum(first, rest);
      forall i | 0 <= i < |rest|
        ensures OddQuotes(text[..i + 1]) == (OddQuotes(rest[..i]) != (text[0] == QUOTE))
      {
        assert text[..i + 1] == first + rest[..i];
        OddQuotesOfSum(first, rest[..i]);
      }
      assert forall i :: 0 <= i < |rest| ==> rest[i] == text[i + 1];
      UncutStep(text, q, q');
    }
  }

  lemma UncutStep(text: string, q: bool, q': bool)
    requires text != "" && q' == (if text[0] == QUOTE then !q else q)
    requires var rest := text[1..];
             forall i :: 0 <= i < |rest| ==> OddQuotes(text[..i + 1]) == (OddQuotes(rest[..i]) != (text[0] == QUOTE))
    ensures (forall i :: 0 <= i < |text| && text[i] == ',' ==> OddQuotes(text[..i]) != q) <==>
            !(text[0] == ',' && !q)
            && forall i :: 0 <= i < |text[1..]| && text[1..][i] == ',' ==> OddQuotes(text[1..][..i]) != q'
  {
    var rest := text[1..];
    assert !OddQuotes(text[..0]);
    if forall i :: 0 <= i < |text| && text[i] == ',' ==> OddQuotes(text[..i]) != q {
      forall i | 0 <= i < |rest| && rest[i] == ','
        ensures OddQuotes(rest[..i]) != q'
      {
        assert text[i + 1] == ',';
      }
    }
    if forall i :: 0 <= i < |rest| && rest[i] == ',' ==> OddQuotes(rest[..i]) != q' {
      forall i | 0 < i < |text| && text[i] == ','
        ensures OddQuotes(text[..i]) != q
      {
        assert rest[i - 1] == ',';
      }
    }
  }

  /** A cut in which no segment holds a comma outside quotes, and every segment
      but the last closes its quotes. */
  predicate IsCut(segments: seq<Segment>) {
    && segments != []
    && (forall i :: 0 <= i < |segments| ==> FirstOutside(segments[i].text, ',', 0) == -1)
    && (forall i :: 0 <= i < |segments| - 1 ==> !OddQuotes(segments[i].text))
  }

  lemma {:induction false} IsCutIff(segments: seq<Segment>)
    requires segments != []
    ensures IsCut(segments) <==> CleanCut(segments, false)
    decreases |segments|
  {
    var first, rest := segments[0].text, segments[1..];
    UncutIff(first, false);
    assert FirstOutside(first, ',', 0) == -1 <==> Uncut(first, false) by {
      NoneFound(first);
    }
    hide Uncut, OddQuotes, FirstOutside, EndsQuoted;
    if rest != [] {
      IsCutIff(rest);
      assert forall i :: 0 <= i < |rest| ==> rest[i] == segments[i + 1];
      if IsCut(rest) && FirstOutside(first, ',', 0) == -1 && !OddQuotes(first) {
        forall i | 0 <= i < |segments|
          ensures FirstOutside(segments[i].text, ',', 0) == -1
          ensures i < |segments| - 1 ==> !OddQuotes(segments[i].text)
        {
          assert i > 0 ==> segments[i] == rest[i - 1];
        }
      }
    }
  }

  lemma NoneFound(text: string)
    ensures FirstOutside(text, ',', 0) == -1 <==>
            forall i :: 0 <= i < |text| && text[i] == ',' ==> OddQuotes(text[..i]) != false
  {
    var r := FirstOutside(text, ',', 0);
    if r >= 0 {
      assert Found(text, ',', r);
    } else {
      forall i | 0 <= i < |text| && text[i] == ','
        ensures OddQuotes(text[..i])
      {
        assert !Found(text, ',', i);
      }
    }
  }

  /** The cut is determined: the segments of a tag are the only list that joins to
      it by commas, holds no comma outside quotes and closes quotes before its end. */
  lemma CutIsDetermined(s: string, segments: seq<Segment>)
    ensures segments == Segments(s, false) <==> JoinCommas(segments) == s && IsCut(segments)
  {
    SegmentsRebuild(s, false);
    SegmentsAreClean(s, false);
    IsCutIff(Segments(s, false));
    if IsCut(segments) && JoinCommas(segments) == s {
      IsCutIff(segments);
      CleanCutIsFound(segments, false);
    }
  }

  // ----- the loop -----------------------------------------------------------------------------

  lemma CallsGrow(done: seq<Segment>, segment: Segment)
    ensures CallsOf(done + [segment]) ==
              match CallsOf(done)
              case None => None
              case Some(calls) => if Faulty(segment) then None else Some(calls + [CallOf(segment).value])
  {
  }

  /** A faulty segment that is not the last one spoils the tag. */
  lemma FaultySegment(done: seq<Segment>, segment: Segment, rest: seq<Segment>)
    requires rest != [] && Faulty(segment)
    ensures CallsOf(WithoutBlankEnd(done + ([segment] + rest))).None?
  {
    var all := done + ([segment] + rest);
    var kept := WithoutBlankEnd(all);
    assert all[|done|] == segment && kept[|done|] == segment;
    CallsFailExactly(kept);
  }

  /** Whether position i of the tag is inside quotes. */
  predicate QuotedAt(t: string, i: nat)
    requires i <= |t|
  {
    OddQuotes(t[..i])
  }

  /** The segments still to come, with the text already in the buffer. */
  function Ahead(t: string, i: nat, buf: string): seq<Segment>
    requires i <= |t|
  {
    Glue(buf, Segments(t[i..], QuotedAt(t, i)))
  }

  lemma AheadStep(t: string, i: nat, buf: string)
    requires i < |t|
    ensures QuotedAt(t, i + 1) == if t[i] == QUOTE then !QuotedAt(t, i) else QuotedAt(t, i)
    ensures Ahead(t, i, buf) ==
              if t[i] == ',' && !QuotedAt(t, i) then [Segment(buf)] + Ahead(t, i + 1, "")
              else Ahead(t, i + 1, buf + [t[i]])
    ensures Ahead(t, i + 1, "") != []
  {
    OddQuotesStep(t, i);
    assert t[i..][1..] == t[i + 1..];
    var rest := Segments(t[i + 1..], QuotedAt(t, i + 1));
    assert "" + rest[0].text == rest[0].text && buf + "" == buf;
    assert buf + ([t[i]] + rest[0].text) == buf + [t[i]] + rest[0].text;
  }

  lemma AheadStart(t: string)
    ensures !QuotedAt(t, 0) && Segments(t, false) == [] + Ahead(t, 0, "")
    ensures CallsOf([]) == Some([])
  {
    assert t[0..] == t;
    assert !QuotedAt(t, 0);
    var r := Segments(t, false);
    hide Segments;
    assert "" + r[0].text == r[0].text;
  }

  lemma AheadEnd(t: string, buf: string)
    ensures QuotedAt(t, |t|) == OddQuotes(t) && Ahead(t, |t|, buf) == [Segment(buf)]
  {
    assert t[..|t|] == t && t[|t|..] == "" && buf + "" == buf;
    hide OddQuotes;
  }

  /** parseTag: scans the tag once, flushing a call at every comma outside quotes. */
  method ParseTag(tag: string) returns (r: Option<seq<RuleCall>>)
    ensures r == Parsed(tag)
  {
    hide Segments, CallsOf, Blank, CallOf, OddQuotes, Trim, QuotedAt, Ahead;
    var t := Trim(tag);
    if t == "" {
      return Some([]);
    }
    var out: seq<RuleCall> := [];
    var buf := "";
    var inQuotes := false;
    ghost var done: seq<Segment> := [];
    AheadStart(t);
    for i := 0 to |t|
      invariant inQuotes == QuotedAt(t, i)
      invariant CallsOf(done) == Some(out)
      invariant Segments(t, false) == done + Ahead(t, i, buf)
    {
      AheadStep(t, i, buf);
      if t[i] == ',' && !inQuotes {
        var segment := Segment(buf);
        CallsGrow(done, segment);
        if Blank(segment) || CallOf(segment).None? {
          FaultySegment(done, segment, Ahead(t, i + 1, ""));
          return None;
        }
        out := out + [CallOf(segment).value];
        done := done + [segment];
        buf := "";
      } else {
        if t[i] == QUOTE {
          inQuotes := !inQuotes;
        }
        buf := buf + [t[i]];
      }
    }
    AheadEnd(t, buf);
    if inQuotes {
      return None;
    }
    var segment := Segment(buf);
    CallsGrow(done, segment);
    if Blank(segment) {
      assert (done + [segment])[..|done|] == done;
      return Some(out);
    }
    if CallOf(segment).None? {
      return None;
    }
    return Some(out + [CallOf(segment).value]);
  }
}
