/** The HTML validator's bookkeeping: the file names pages are saved under,
    the decoding of those names out of the v.Nu report, the conversion of
    one v.Nu message into a log record, and the queue counter that decides
    when v.Nu runs. Running v.Nu itself is outside this model: the messages
    it reports are a parameter. */
module HtmlValidation {
  import opened PyValues
  import opened PyStrings

  // ---------------------------------------------------------------------
  // File names: `"code_%s_%s.html" % (page_id, html_type)`

  datatype HtmlType = Raw | Dom

  function TypeName(t: HtmlType): string {
    match t
    case Raw => "raw"
    case Dom => "dom"
  }

  /** The `html_types` table: raw is 1, dom is 2. */
  function HtmlTypeId(t: HtmlType): int {
    match t
    case Raw => 1
    case Dom => 2
  }

  /** The name `_save_html_to_file` gives a page's HTML. */
  function FileName(pageId: nat, t: HtmlType): string {
    "code_" + NatToString(pageId) + "_" + TypeName(t) + ".html"
  }

  /** How many ASCII digits follow position `p` of `s`. */
  function DigitRun(s: string, p: nat): (k: nat)
    requires p <= |s|
    ensures p + k <= |s|
    ensures forall i :: p <= i < p + k ==> IsDigit(s[i])
    ensures p + k < |s| ==> !IsDigit(s[p + k])
    decreases |s| - p
  {
    if p < |s| && IsDigit(s[p]) then 1 + DigitRun(s, p + 1) else 0
  }

  /** The pattern `code_(\d+)_(raw|dom).html` tried at position `i` of `s`
      (the unescaped `.` matches any character but a newline). The digit
      run is taken whole: the `_` after it can never match a digit. */
  function MatchAt(s: string, i: nat): Option<(nat, HtmlType)>
    requires i <= |s|
  {
    if |s| < i + 5 || s[i..i + 5] != "code_" then None
    else
      var k := DigitRun(s, i + 5);
      var j := i + 5 + k;
      if k == 0 || |s| < j + 9 then None
      else
        match TypeTag(s[j..j + 9])
        case None => None
        case Some(t) => Some((ParseDigits(s[i + 5..j]), t))
  }

  /** The nine characters after the digits: `_(raw|dom).html`. */
  function TypeTag(w: string): Option<HtmlType>
    requires |w| == 9
  {
    if w[0] != '_' || w[4] == '\n' || w[5..] != "html" then None
    else if w[1..4] == "raw" then Some(Raw)
    else if w[1..4] == "dom" then Some(Dom)
    else None
  }

  /** The leftmost match at or after position `i`. */
  function FirstMatchFrom(s: string, i: nat): Option<(nat, HtmlType)>
    requires i <= |s|
    decreases |s| - i
  {
    if MatchAt(s, i).Some? then MatchAt(s, i)
    else if i == |s| then None
    else FirstMatchFrom(s, i + 1)
  }

  /** `re.findall(...)[0]` read as (page id, html type); None where
      `findall` finds nothing and indexing it raises. */
  function FindFileName(s: string): Option<(nat, HtmlType)> {
    FirstMatchFrom(s, 0)
  }

  predicate NoMatchBefore(s: string, n: nat)
    requires n <= |s|
  {
    forall i :: 0 <= i < n ==> MatchAt(s, i).None?
  }

  /** `s` holds the text `code_` starting at position `i`. */
  predicate CodeAt(s: string, i: nat) {
    i + 5 <= |s| && s[i..i + 5] == "code_"
  }

  lemma {:induction false} FirstMatchSkips(s: string, i: nat, n: nat)
    requires i <= n <= |s| && NoMatchBefore(s, n)
    ensures FirstMatchFrom(s, i) == FirstMatchFrom(s, n)
    decreases n - i
  {
    if i < n {
      FirstMatchSkips(s, i + 1, n);
    }
  }

  lemma {:induction false} DigitRunExact(s: string, p: nat, k: nat)
    requires p + k <= |s|
    requires forall i :: p <= i < p + k ==> IsDigit(s[i])
    requires p + k < |s| ==> !IsDigit(s[p + k])
    ensures DigitRun(s, p) == k
    decreases k
  {
    if k > 0 {
      DigitRunExact(s, p + 1, k - 1);
    }
  }

  lemma {:induction false} DigitRunSuffix(s: string, i: nat, p: nat)
    requires i <= p <= |s|
    ensures DigitRun(s, p) == DigitRun(s[i..], p - i)
    decreases |s| - p
  {
    if p < |s| {
      assert s[i..][p - i] == s[p];
      DigitRunSuffix(s, i, p + 1);
    }
  }

  /** Whether the pattern matches at `i` depends only on the text from `i` on. */
  lemma MatchAtSuffix(s: string, i: nat)
    requires i <= |s|
    ensures MatchAt(s, i) == MatchAt(s[i..], 0)
  {
    var w := s[i..];
    if i + 5 <= |s| {
      assert s[i..i + 5] == w[0..5];
      DigitRunSuffix(s, i, i + 5);
      var k := DigitRun(s, i + 5);
      var j := i + 5 + k;
      if j + 9 <= |s| {
        assert s[j..j + 9] == w[5 + k..5 + k + 9];
        assert s[i + 5..j] == w[5..5 + k];
      }
    }
  }

  /** A saved file's name is `code_`, the digits, then nine characters. */
  lemma FileNameParts(pageId: nat, t: HtmlType)
    ensures var name := FileName(pageId, t);
      var j := 5 + |NatToString(pageId)|;
      && |name| == j + 9
      && name[0..5] == "code_"
      && name[5..j] == NatToString(pageId)
      && name[j..j + 9] == "_" + TypeName(t) + ".html"
  {
    var head := "code_" + NatToString(pageId);
    var tail := "_" + TypeName(t) + ".html";
    var name := FileName(pageId, t);
    assert name == head + tail;
    assert name[0..5] == head[0..5];
    assert name[5..|head|] == head[5..];
    assert name[|head|..] == tail;
  }

  /** The pattern, tried where a saved file's name starts, reads back the
      page id and type the name was made from. */
  lemma MatchFileName(pageId: nat, t: HtmlType)
    ensures MatchAt(FileName(pageId, t), 0) == Some((pageId, t))
  {
    var digits := NatToString(pageId);
    var name := FileName(pageId, t);
    var j := 5 + |digits|;
    FileNameParts(pageId, t);
    forall x | 5 <= x < j ensures IsDigit(name[x]) {
      assert name[x] == name[5..j][x - 5];
    }
    assert name[j] == name[j..j + 9][0] == '_';
    DigitRunExact(name, 5, |digits|);
    assert TypeTag(name[j..j + 9]) == Some(t);
    ParseNatToString(pageId);
  }

  lemma MatchAtFileName(prefix: string, pageId: nat, t: HtmlType)
    ensures MatchAt(prefix + FileName(pageId, t), |prefix|) == Some((pageId, t))
  {
    var s := prefix + FileName(pageId, t);
    MatchAtSuffix(s, |prefix|);
    assert s[|prefix|..] == FileName(pageId, t);
    MatchFileName(pageId, t);
  }

  /** Round trip: the page id and type a file name was built from come back
      out of any text that ends with it, provided no match of the pattern
      starts earlier in that text. */
  lemma FileNameRoundTrip(prefix: string, pageId: nat, t: HtmlType)
    requires NoMatchBefore(prefix + FileName(pageId, t), |prefix|)
    ensures FindFileName(prefix + FileName(pageId, t)) == Some((pageId, t))
  {
    var s := prefix + FileName(pageId, t);
    FirstMatchSkips(s, 0, |prefix|);
    MatchAtFileName(prefix, pageId, t);
  }

  /** A prefix that never spells `code_` (a directory path, say) cannot hide
      the file name: `code_` overlaps no shifted copy of itself. */
  lemma FileNameRoundTripAfterPath(prefix: string, pageId: nat, t: HtmlType)
    requires forall i :: 0 <= i < |prefix| ==> !CodeAt(prefix, i)
    ensures FindFileName(prefix + FileName(pageId, t)) == Some((pageId, t))
  {
    var s := prefix + FileName(pageId, t);
    forall i | 0 <= i < |prefix| ensures MatchAt(s, i).None? {
      if i + 5 <= |prefix| {
        assert !CodeAt(prefix, i);
        assert s[i..i + 5] == prefix[i..i + 5];
      } else if i + 5 <= |s| {
        var d := |prefix| - i;
        assert s[|prefix|] == FileName(pageId, t)[0] == 'c';
        assert s[i..i + 5][d] == 'c';
        assert "code_"[d] != 'c';
        assert s[i..i + 5] != "code_";
      }
    }
    FileNameRoundTrip(prefix, pageId, t);
  }

  // ---------------------------------------------------------------------
  // One v.Nu message

  /** The keys of a v.Nu JSON message that the parser reads; None where the
      key is absent. */
  datatype VnuMessage = VnuMessage(
    url: Option<string>,
    msgType: Option<string>,
    lastLine: Option<int>,
    message: Option<string>,
    extract: Option<string>,
    hiliteStart: Option<int>,
    hiliteLength: Option<int>)

  /** The record `_parse_output_message` builds; `extractParts` is the list
      that is serialised into `extract_json`. */
  datatype ParsedLog = ParsedLog(
    isError: int,
    line: int,
    extractParts: seq<string>,
    description: string,
    pageId: nat,
    htmlTypeId: int)

  /** `_split_extract`: the text before, inside and after the highlight. */
  function SplitExtract(msg: VnuMessage): (parts: seq<string>)
    ensures |parts| == 3
  {
    var extract := msg.extract.GetOr("");
    var start := msg.hiliteStart.GetOr(0);
    var end := if msg.hiliteLength.Some? then start + msg.hiliteLength.value else 0;
    [Slice(extract, 0, start), Slice(extract, start, end), Slice(extract, end, |extract|)]
  }

  /** With a non-negative highlight, the three parts glue back into the
      extract. */
  lemma SplitExtractRoundTrip(msg: VnuMessage)
    requires msg.hiliteStart.GetOr(0) >= 0
    requires msg.hiliteLength.Some? && msg.hiliteLength.value >= 0
    ensures var parts := SplitExtract(msg);
      parts[0] + parts[1] + parts[2] == msg.extract.GetOr("")
  {
    var start := msg.hiliteStart.GetOr(0);
    SliceThreeWay(msg.extract.GetOr(""), start, start + msg.hiliteLength.value);
  }

  /** The highlighted part is the slice `extract[start:start+hiliteLength]`
      and never longer than `hiliteLength`, wherever the start lies. */
  lemma SplitExtractHilite(msg: VnuMessage)
    requires msg.hiliteLength.Some? && msg.hiliteLength.value >= 0
    ensures var start := msg.hiliteStart.GetOr(0);
      && SplitExtract(msg)[1] == Slice(msg.extract.GetOr(""), start, start + msg.hiliteLength.value)
      && |SplitExtract(msg)[1]| <= msg.hiliteLength.value
  {
    var extract := msg.extract.GetOr("");
    var start := msg.hiliteStart.GetOr(0);
    var len := msg.hiliteLength.value;
    var a, b := SliceIndex(start, |extract|), SliceIndex(start + len, |extract|);
    if a < b {
      assert |Slice(extract, start, start + len)| == b - a;
      assert b - a <= len;
    }
  }

  /** Without `hiliteLength` the end is 0, not `start`: the highlight is
      empty and the third part repeats the whole extract. */
  lemma SplitExtractWithoutLength(msg: VnuMessage)
    requires msg.hiliteLength.None?
    ensures SplitExtract(msg)[0] == Slice(msg.extract.GetOr(""), 0, msg.hiliteStart.GetOr(0))
    ensures SplitExtract(msg)[1] == []
    ensures SplitExtract(msg)[2] == msg.extract.GetOr("")
  {
  }

  /** An input where the parts do not glue back into the extract. */
  lemma SplitExtractWithoutLengthRepeatsText()
    ensures var msg := VnuMessage(None, None, None, None, Some("abc"), Some(1), None);
      var parts := SplitExtract(msg);
      parts == ["a", "", "abc"] && parts[0] + parts[1] + parts[2] != "abc"
  {
    var msg := VnuMessage(None, None, None, None, Some("abc"), Some(1), None);
    SplitExtractWithoutLength(msg);
    assert Slice("abc", 0, 1) == "abc"[0..1] == "a";
  }

  const OpenQuote: char := '\U{201C}'
  const CloseQuote: char := '\U{201D}'

  /** `_replace_unicode_quotes`: curly quotes become braces. */
  function ReplaceUnicodeQuotes(text: string): (r: string)
    ensures |r| == |text|
    ensures OpenQuote !in r && CloseQuote !in r
    ensures forall i :: 0 <= i < |text| && text[i] != OpenQuote && text[i] != CloseQuote ==> r[i] == text[i]
    ensures forall i :: 0 <= i < |text| && text[i] == OpenQuote ==> r[i] == '{'
    ensures forall i :: 0 <= i < |text| && text[i] == CloseQuote ==> r[i] == '}'
  {
    Replace(Replace(text, OpenQuote, '{'), CloseQuote, '}')
  }

  /** Replacing the quotes a second time changes nothing. */
  lemma ReplaceUnicodeQuotesIdempotent(text: string)
    ensures ReplaceUnicodeQuotes(ReplaceUnicodeQuotes(text)) == ReplaceUnicodeQuotes(text)
  {
    var once := ReplaceUnicodeQuotes(text);
    var twice := ReplaceUnicodeQuotes(once);
    forall i | 0 <= i < |once| ensures twice[i] == once[i] {
      assert once[i] != OpenQuote && once[i] != CloseQuote by {
        assert once[i] in once;
      }
    }
  }

  /** `_parse_output_message`: the log record for one v.Nu message, or the
      exception raised on the way. */
  function ParseOutputMessage(msg: VnuMessage): (r: Outcome<ParsedLog>)
    ensures r.Ok? <==>
      msg.url.Some? && FindFileName(msg.url.value).Some? && msg.msgType.Some? && msg.message.Some?
    ensures msg.url.None? ==> r == Raised(KeyError("url"))
    ensures msg.url.Some? && FindFileName(msg.url.value).None? ==> r == Raised(IndexError)
    ensures msg.url.Some? && FindFileName(msg.url.value).Some? && msg.msgType.None? ==>
      r == Raised(KeyError("type"))
    ensures msg.url.Some? && FindFileName(msg.url.value).Some? && msg.msgType.Some? && msg.message.None? ==>
      r == Raised(KeyError("message"))
    ensures r.Ok? ==>
      var file := FindFileName(msg.url.value).value;
      && (r.value.isError == 1 <==> msg.msgType.value == "error")
      && (r.value.isError == 0 <==> msg.msgType.value != "error")
      && r.value.line == msg.lastLine.GetOr(0)
      && r.value.extractParts == SplitExtract(msg)
      && r.value.description == ReplaceUnicodeQuotes(msg.message.value)
      && r.value.pageId == file.0
      && (r.value.htmlTypeId == 1 <==> file.1 == Raw)
      && (r.value.htmlTypeId == 2 <==> file.1 == Dom)
  {
    if msg.url.None? then Raised(KeyError("url"))
    else
      var found := FindFileName(msg.url.value);
      if found.None? then Raised(IndexError)
      else
        var (pageId, htmlType) := found.value;
        var extractParts := SplitExtract(msg);
        if msg.msgType.None? then Raised(KeyError("type"))
        else
          var isError := if msg.msgType.value == "error" then 1 else 0;
          var line := msg.lastLine.GetOr(0);
          if msg.message.None? then Raised(KeyError("message"))
          else Ok(ParsedLog(isError, line, extractParts, ReplaceUnicodeQuotes(msg.message.value),
                            pageId, HtmlTypeId(htmlType)))
  }

  /** A v.Nu message about a page saved under a directory path is attributed
      to that page and type. */
  lemma ParseSavedPageMessage(dir: string, pageId: nat, t: HtmlType, msg: VnuMessage)
    requires forall i :: 0 <= i < |dir| ==> !CodeAt(dir, i)
    requires msg.url == Some(dir + FileName(pageId, t))
    requires msg.msgType.Some? && msg.message.Some?
    ensures ParseOutputMessage(msg).Ok?
    ensures ParseOutputMessage(msg).value.pageId == pageId
    ensures ParseOutputMessage(msg).value.htmlTypeId == HtmlTypeId(t)
  {
    FileNameRoundTripAfterPath(dir, pageId, t);
  }

  /** The loop of `_execute_vnu` that parses every reported message. */
  method ParseMessages(msgs: seq<VnuMessage>) returns (logs: Outcome<seq<ParsedLog>>)
    ensures logs == Collect(ParseOutputMessage, msgs)
  {
    var parsed: seq<ParsedLog> := [];
    var i := 0;
    while i < |msgs|
      invariant 0 <= i <= |msgs|
      invariant Collect(ParseOutputMessage, msgs[..i]) == Ok(parsed)
    {
      CollectStep(ParseOutputMessage, msgs, i);
      var log := ParseOutputMessage(msgs[i]);
      if log.Raised? {
        CollectRaisedPrefix(ParseOutputMessage, msgs, i + 1);
        return Raised(log.error);
      }
      parsed := parsed + [log.value];
      i := i + 1;
    }
    assert msgs[..i] == msgs;
    return Ok(parsed);
  }

  // ---------------------------------------------------------------------
  // The queue

  const QueueMaxSize: int := 40

  lemma MapUpdateSize(m: map<string, string>, k: string, v: string)
    ensures |m[k := v]| <= |m| + 1
  {
    if k in m {
      assert m[k := v].Keys == m.Keys;
    } else {
      assert m[k := v].Keys == m.Keys + {k};
    }
  }

  /** Every file in the directory is named by the saving scheme. */
  ghost predicate SavedNames(dir: map<string, string>) {
    forall name :: name in dir ==> exists pageId: nat, t: HtmlType :: name == FileName(pageId, t)
  }

  /** Every file in such a directory decodes, through the report parser's
      pattern, to the page id and type it was saved under. */
  lemma SavedNamesDecode(dir: map<string, string>, name: string)
    requires SavedNames(dir) && name in dir
    ensures FindFileName(name).Some?
    ensures name == FileName(FindFileName(name).value.0, FindFileName(name).value.1)
  {
    var pageId: nat, t: HtmlType :| name == FileName(pageId, t);
    FileNameRoundTrip("", pageId, t);
    assert "" + FileName(pageId, t) == name;
  }

  class HtmlValidator {
    /** `config.validator_enabled`. */
    const enabled: bool
    const queueMaxSize: int
    var queueCurrentSize: int
    /** The pages saved to the validator's directory and not yet validated,
        by file name. */
    var htmlDir: map<string, string>
    /** How many pages `add_to_queue` has saved since v.Nu last ran. */
    ghost var queuedPages: nat

    ghost predicate Valid()
      reads this
    {
      && queueMaxSize == QueueMaxSize
      && queueCurrentSize == 2 * queuedPages
      && |htmlDir| <= queueCurrentSize
      && SavedNames(htmlDir)
      && (!enabled ==> queueCurrentSize == 0)
    }

    constructor (enabled: bool)
      ensures Valid() && this.enabled == enabled
      ensures queueCurrentSize == 0 && htmlDir == map[]
    {
      this.enabled := enabled;
      queueMaxSize := QueueMaxSize;
      queueCurrentSize := 0;
      htmlDir := map[];
      queuedPages := 0;
    }

    /** The file-writing step of `_save_html_to_file`. */
    method SaveHtmlToFile(pageId: nat, t: HtmlType, html: string)
      modifies this`htmlDir
      ensures htmlDir == old(htmlDir)[FileName(pageId, t) := html]
      ensures |htmlDir| <= |old(htmlDir)| + 1
      ensures SavedNames(old(htmlDir)) ==> SavedNames(htmlDir)
    {
      MapUpdateSize(htmlDir, FileName(pageId, t), html);
      htmlDir := htmlDir[FileName(pageId, t) := html];
    }

    /** `add_to_queue`: save both renderings of a page and count them. */
    method AddToQueue(pageId: nat, htmlRaw: string, htmlDom: string)
      requires Valid()
      modifies this
      ensures Valid()
      ensures enabled ==>
        && queueCurrentSize == old(queueCurrentSize) + 2
        && queuedPages == old(queuedPages) + 1
        && htmlDir == old(htmlDir)[FileName(pageId, Raw) := htmlRaw][FileName(pageId, Dom) := htmlDom]
      ensures !enabled ==> queueCurrentSize == old(queueCurrentSize) && htmlDir == old(htmlDir)
    {
      if !enabled {
        return;
      }
      SaveHtmlToFile(pageId, Raw, htmlRaw);
      SaveHtmlToFile(pageId, Dom, htmlDom);
      queueCurrentSize := queueCurrentSize + 2;
      queuedPages := queuedPages + 1;
    }

    /** `_execute_vnu`, given the messages v.Nu reports for the directory. */
    method ExecuteVnu(vnuOutput: seq<VnuMessage>) returns (logs: Outcome<seq<ParsedLog>>)
      requires Valid()
      modifies this
      ensures Valid()
      ensures old(queueCurrentSize) == 0 ==>
        logs == Ok([]) && queueCurrentSize == 0 && htmlDir == old(htmlDir)
      ensures old(queueCurrentSize) != 0 ==> logs == Collect(ParseOutputMessage, vnuOutput)
      ensures old(queueCurrentSize) != 0 && logs.Ok? ==> queueCurrentSize == 0 && htmlDir == map[]
      ensures logs.Raised? ==> queueCurrentSize == old(queueCurrentSize) && htmlDir == old(htmlDir)
    {
      if queueCurrentSize == 0 {
        return Ok([]);
      }
      logs := ParseMessages(vnuOutput);
      if logs.Raised? {
        return;
      }
      htmlDir := map[];
      queueCurrentSize := 0;
      queuedPages := 0;
    }

    /** `validate`: the logs it hands to the database (none when disabled). */
    method Validate(vnuOutput: seq<VnuMessage>) returns (saved: Outcome<seq<ParsedLog>>)
      requires Valid()
      modifies this
      ensures Valid()
      ensures !enabled ==> saved == Ok([]) && queueCurrentSize == old(queueCurrentSize) && htmlDir == old(htmlDir)
      ensures enabled && old(queueCurrentSize) == 0 ==> saved == Ok([]) && htmlDir == old(htmlDir)
      ensures enabled && old(queueCurrentSize) != 0 ==> saved == Collect(ParseOutputMessage, vnuOutput)
      ensures saved.Ok? ==> queueCurrentSize == 0
      ensures saved.Raised? ==> queueCurrentSize == old(queueCurrentSize) && htmlDir == old(htmlDir)
    {
      if !enabled {
        return Ok([]);
      }
      saved := ExecuteVnu(vnuOutput);
    }

    /** `validate_if_full_queue`: validation runs iff the counter has reached
        the maximum. */
    method ValidateIfFullQueue(vnuOutput: seq<VnuMessage>) returns (fired: bool, saved: Outcome<seq<ParsedLog>>)
      requires Valid()
      modifies this
      ensures Valid()
      ensures fired <==> old(queueCurrentSize) >= queueMaxSize
      ensures !fired ==> saved == Ok([]) && queueCurrentSize == old(queueCurrentSize) && htmlDir == old(htmlDir)
      ensures fired ==> saved == Collect(ParseOutputMessage, vnuOutput)
      ensures fired && saved.Ok? ==> queueCurrentSize == 0 && htmlDir == map[]
      ensures saved.Raised? ==> queueCurrentSize == old(queueCurrentSize) && htmlDir == old(htmlDir)
    {
      fired := queueCurrentSize >= queueMaxSize;
      if !fired {
        return fired, Ok([]);
      }
      saved := Validate(vnuOutput);
    }
  }
}
