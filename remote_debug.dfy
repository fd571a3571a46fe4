/** The DevTools remote-debugging client: the Chrome command line, cookie
    preparation, cookie listing, navigation-result assembly and the HTML
    fetchers. The multiplexing socket is outside this model: whatever it
    answers is a parameter, and the functions that may or may not talk to it
    say which calls they made. */
module RemoteDebug {
  import opened PyValues
  import opened PyStrings

  /** An inbound protocol message, as the decoded JSON dictionary. */
  type Message = Dict

  /** A request made of the socket. */
  datatype SocketCall =
    | Send(command: string, params: Dict)
    | SendReturn(command: string, params: Dict)
    | ReadUntilEvents(events: seq<string>)

  /** A value together with the socket calls made to produce it. */
  datatype Exchange<T> = Exchange(value: T, calls: seq<SocketCall>)

  /** `open_url` returns False, or the trace of messages for the page. */
  datatype Navigation = NavigationFailed | PageLoaded(trace: seq<Message>)

  /** The configuration settings the constructor reads. */
  datatype ChromeConfig = ChromeConfig(
    chromeBinary: string,
    chromeDebuggingPort: nat,
    chromeDataDir: string,
    windowSize: string,
    chromeHeadless: bool,
    chromeIgnoreCert: bool)

  const LoadEvents: seq<string> := ["Page.loadEventFired", "Page.domContentEventFired"]

  // ---------------------------------------------------------------------
  // Constructor: the Chrome command line

  function ProfileDir(cfg: ChromeConfig): string {
    PathJoin(cfg.chromeDataDir, "port_" + NatToString(cfg.chromeDebuggingPort))
  }

  /** The five arguments every Chrome command line starts with. */
  function BaseArguments(cfg: ChromeConfig): seq<string> {
    [ cfg.chromeBinary,
      "--remote-debugging-port=" + NatToString(cfg.chromeDebuggingPort),
      "--window-size=" + Replace(cfg.windowSize, 'x', ','),
      "--no-first-run",
      "--user-data-dir=" + ProfileDir(cfg) ]
  }

  /** `command_parts` as the constructor builds it; None where the constructor
      gives up because no Chrome binary is configured. */
  method CommandParts(cfg: ChromeConfig) returns (r: Option<seq<string>>)
    ensures r.None? <==> cfg.chromeBinary == ""
    ensures r.Some? ==>
      var parts := r.value;
      && |parts| == 5 + (if cfg.chromeHeadless then 2 else 0) + (if cfg.chromeIgnoreCert then 1 else 0)
      && parts[..5] == BaseArguments(cfg)
      && ("--headless" in parts[5..] <==> cfg.chromeHeadless)
      && ("--disable-gpu" in parts[5..] <==> cfg.chromeHeadless)
      && ("--ignore-certificate-errors" in parts[5..] <==> cfg.chromeIgnoreCert)
      && (cfg.chromeHeadless ==> parts[5] == "--headless" && parts[6] == "--disable-gpu")
      && (cfg.chromeIgnoreCert ==> parts[|parts| - 1] == "--ignore-certificate-errors")
    ensures r.Some? ==> 'x' !in r.value[2] && |r.value[2]| == |"--window-size="| + |cfg.windowSize|
  {
    if cfg.chromeBinary == "" {
      return None;
    }
    var parts := BaseArguments(cfg);
    if cfg.chromeHeadless {
      parts := parts + ["--headless"];
      parts := parts + ["--disable-gpu"];
    }
    if cfg.chromeIgnoreCert {
      parts := parts + ["--ignore-certificate-errors"];
    }
    assert parts[..5] == BaseArguments(cfg);
    assert parts[5..] == (if cfg.chromeHeadless then ["--headless", "--disable-gpu"] else []) +
                         (if cfg.chromeIgnoreCert then ["--ignore-certificate-errors"] else []);
    var w := parts[2];
    assert forall i :: 0 <= i < |w| ==> w[i] != 'x' by {
      forall i | 0 <= i < |w| ensures w[i] != 'x' {
        var prefix := "--window-size=";
        if i >= |prefix| {
          assert w[i] == Replace(cfg.windowSize, 'x', ',')[i - |prefix|];
        }
      }
    }
    return Some(parts);
  }

  // ---------------------------------------------------------------------
  // _set_cookie

  /** Two dictionaries agree on key `k`. */
  predicate SameAt(a: Dict, b: Dict, k: string) {
    (k in a <==> k in b) && (k in a ==> a[k] == b[k])
  }

  /** The cookie dictionary after `_set_cookie` has rewritten it. */
  function RewriteCookie(cookie: Dict, startUrl: string): (r: Dict)
    ensures "domain" in r || "url" in r
    ensures "domain" !in cookie ==> "url" in r && r["url"] == JStr(startUrl)
    ensures "domain" in cookie ==> SameAt(r, cookie, "url")
    ensures "httponly" !in r
    ensures "httponly" in cookie ==> "httpOnly" in r && r["httpOnly"] == cookie["httponly"]
    ensures "httponly" !in cookie ==> SameAt(r, cookie, "httpOnly")
    ensures forall k :: k != "url" && k != "httponly" && k != "httpOnly" ==> SameAt(r, cookie, k)
  {
    var withUrl := if "domain" !in cookie then cookie["url" := JStr(startUrl)] else cookie;
    if "httponly" in withUrl then (withUrl - {"httponly"})["httpOnly" := withUrl["httponly"]]
    else withUrl
  }

  /** Rewriting a cookie that was already rewritten changes nothing, so the
      configured cookies, which `_set_cookie` edits in place, are sent the
      same way on every session. */
  lemma RewriteCookieIdempotent(cookie: Dict, startUrl: string)
    ensures RewriteCookie(RewriteCookie(cookie, startUrl), startUrl) == RewriteCookie(cookie, startUrl)
  {
    var once := RewriteCookie(cookie, startUrl);
    var twice := RewriteCookie(once, startUrl);
    forall k ensures SameAt(twice, once, k) {
      if k == "url" && "domain" !in once {
        assert "domain" !in cookie;
      }
    }
    assert twice.Keys == once.Keys;
  }

  /** A cookie dictionary owned by the configuration and edited in place. */
  class CookieData {
    var fields: Dict

    constructor (fields: Dict)
      ensures this.fields == fields
    {
      this.fields := fields;
    }
  }

  /** `_set_cookie`: edit the dictionary in place, then send it. */
  method SetCookie(cookie: CookieData, startUrl: string) returns (call: SocketCall)
    modifies cookie
    ensures cookie.fields == RewriteCookie(old(cookie.fields), startUrl)
    ensures call == Send("Network.setCookie", cookie.fields)
  {
    if "domain" !in cookie.fields {
      cookie.fields := cookie.fields["url" := JStr(startUrl)];
    }
    if "httponly" in cookie.fields {
      var value := cookie.fields["httponly"];
      cookie.fields := (cookie.fields - {"httponly"})["httpOnly" := value];
    }
    call := Send("Network.setCookie", cookie.fields);
  }

  // ---------------------------------------------------------------------
  // get_cookies_for_url

  const CookieKeys: set<string> := {"name", "value", "domain", "path"}

  /** The record built for one cookie of the reply. */
  function ProjectCookie(cookie: Json): (r: Outcome<Json>)
    ensures r.Ok? <==>
      cookie.JObject? && "name" in cookie.fields && "value" in cookie.fields &&
      "domain" in cookie.fields && "path" in cookie.fields
    ensures r.Ok? ==>
      r.value.JObject? && r.value.fields.Keys == CookieKeys &&
      forall k :: k in r.value.fields ==> r.value.fields[k] == cookie.fields[k]
    ensures !cookie.JObject? ==> r == Raised(TypeError)
  {
    if !cookie.JObject? then Raised(TypeError)
    else
      var c := cookie.fields;
      if "name" !in c then Raised(KeyError("name"))
      else if "value" !in c then Raised(KeyError("value"))
      else if "domain" !in c then Raised(KeyError("domain"))
      else if "path" !in c then Raised(KeyError("path"))
      else Ok(JObject(map["name" := c["name"], "value" := c["value"],
                          "domain" := c["domain"], "path" := c["path"]]))
  }

  /** What `get_cookies_for_url` returns for the `Network.getCookies` reply. */
  function CookiesFromReply(result: Reply): Outcome<seq<Json>> {
    if !ReplyTruthy(result) then Ok([])
    else if "cookies" !in result.value then Raised(KeyError("cookies"))
    else
      var cookies := result.value["cookies"];
      if !Truthy(cookies) then Ok([])
      // iterating a non-list and subscripting what comes out fails with TypeError
      else if !cookies.JArray? then Raised(TypeError)
      else Collect(ProjectCookie, cookies.items)
  }

  /** A falsy reply or an empty cookie list gives no records; otherwise there
      is one record per cookie, in order, holding exactly the four copied
      fields. */
  lemma CookiesFromReplyShape(result: Reply)
    ensures !ReplyTruthy(result) ==> CookiesFromReply(result) == Ok([])
    ensures (ReplyTruthy(result) && "cookies" in result.value && result.value["cookies"] == JArray([]))
            ==> CookiesFromReply(result) == Ok([])
    ensures ReplyTruthy(result) && "cookies" in result.value &&
            result.value["cookies"].JArray? && CookiesFromReply(result).Ok? ==>
      var items := result.value["cookies"].items;
      var records := CookiesFromReply(result).value;
      && |records| == |items|
      && forall i :: 0 <= i < |items| ==>
           items[i].JObject? && records[i].JObject? && records[i].fields.Keys == CookieKeys &&
           forall k :: k in CookieKeys ==> k in items[i].fields && records[i].fields[k] == items[i].fields[k]
  {
    if ReplyTruthy(result) && "cookies" in result.value && result.value["cookies"].JArray? {
      var items := result.value["cookies"].items;
      CollectOk(ProjectCookie, items);
      if items != [] && Collect(ProjectCookie, items).Ok? {
        var records := Collect(ProjectCookie, items).value;
        forall i | 0 <= i < |items|
          ensures items[i].JObject? && records[i].JObject? && records[i].fields.Keys == CookieKeys
          ensures forall k :: k in CookieKeys ==> k in items[i].fields && records[i].fields[k] == items[i].fields[k]
        {
          assert ProjectCookie(items[i]) == Ok(records[i]);
        }
      }
    }
  }

  /** The request `get_cookies_for_url` sends for `url`. */
  function GetCookiesCall(url: string): SocketCall {
    Send("Network.getCookies", map["urls" := JArray([JStr(url)])])
  }

  /** `get_cookies_for_url`, given the socket's reply to `Network.getCookies`. */
  method GetCookiesForUrl(url: string, result: Reply) returns (call: SocketCall, r: Outcome<seq<Json>>)
    ensures call == GetCookiesCall(url)
    ensures r == CookiesFromReply(result)
  {
    call := GetCookiesCall(url);
    var cookiesData: seq<Json> := [];
    if !ReplyTruthy(result) {
      r := Ok(cookiesData);
      return;
    }
    if "cookies" !in result.value {
      r := Raised(KeyError("cookies"));
      return;
    }
    var cookies := result.value["cookies"];
    if !Truthy(cookies) {
      r := Ok(cookiesData);
      return;
    }
    if !cookies.JArray? {
      r := Raised(TypeError);
      return;
    }
    var items := cookies.items;
    var i := 0;
    while i < |items|
      invariant 0 <= i <= |items|
      invariant Collect(ProjectCookie, items[..i]) == Ok(cookiesData)
    {
      CollectStep(ProjectCookie, items, i);
      var record := ProjectCookie(items[i]);
      if record.Raised? {
        CollectRaisedPrefix(ProjectCookie, items, i + 1);
        r := Raised(record.error);
        return;
      }
      cookiesData := cookiesData + [record.value];
      i := i + 1;
    }
    assert items[..i] == items;
    r := Ok(cookiesData);
  }

  // ---------------------------------------------------------------------
  // _discard_non_page_messages and open_url

  /** `s` holds `t` as a contiguous run: Python's `t in s` on strings. */
  predicate HasSubstring(s: string, t: string)
    decreases |s|
  {
    |t| <= |s| && (s[..|t|] == t || (s != [] && HasSubstring(s[1..], t)))
  }

  /** Python's `"loaderId" in params` for a decoded `params` value: a key
      test on a dictionary, an element test on a list, a substring search
      on a string, and TypeError on null, a boolean or a number. */
  function HasLoaderId(params: Json): Outcome<bool> {
    match params
    case JObject(fields) => Ok("loaderId" in fields)
    case JArray(items) => Ok(JStr("loaderId") in items)
    case JStr(s) => Ok(HasSubstring(s, "loaderId"))
    case _ => Raised(TypeError)
  }

  /** The message carries `params.loaderId` equal to `loaderId`. */
  predicate BelongsTo(msg: Message, loaderId: Json) {
    "params" in msg && msg["params"].JObject? &&
    "loaderId" in msg["params"].fields && msg["params"].fields["loaderId"] == loaderId
  }

  /** The test `_discard_non_page_messages` applies to one message. It is
      true exactly for a message that belongs to the navigation. It raises
      TypeError when `params` is a scalar, and when it is a list or a string
      that contains "loaderId", since neither can be subscripted by a key. */
  function Keeps(msg: Message, loaderId: Json): (r: Outcome<bool>)
    ensures r == Ok(true) <==> BelongsTo(msg, loaderId)
    ensures r.Raised? ==> r.error == TypeError && "params" in msg && !msg["params"].JObject?
    ensures "params" in msg && (msg["params"].JNull? || msg["params"].JBool? || msg["params"].JInt?)
            ==> r.Raised?
    ensures "params" in msg && msg["params"].JArray? ==>
            (r.Raised? <==> JStr("loaderId") in msg["params"].items)
  {
    if "params" !in msg then Ok(false)
    else
      var params := msg["params"];
      match HasLoaderId(params)
      case Raised(e) => Raised(e)
      case Ok(has) =>
        if !has then Ok(false)
        else if params.JObject? then Ok(params.fields["loaderId"] == loaderId)
        else Raised(TypeError)
  }

  /** The per-message test as a function value, for `Collect`. */
  function KeepsFor(loaderId: Json): Message -> Outcome<bool> {
    msg => Keeps(msg, loaderId)
  }

  /** The messages of `msgs` that belong to the navigation `loaderId`. */
  function Kept(msgs: seq<Message>, loaderId: Json): seq<Message>
    decreases |msgs|
  {
    if msgs == [] then []
    else
      var last := msgs[|msgs| - 1];
      Kept(msgs[..|msgs| - 1], loaderId) + (if BelongsTo(last, loaderId) then [last] else [])
  }

  /** The filtering loop of `_discard_non_page_messages`: the first
      exception a message's test raises, or the messages that belong. */
  function Belonging(msgs: seq<Message>, loaderId: Json): Outcome<seq<Message>> {
    match Collect(KeepsFor(loaderId), msgs)
    case Raised(e) => Raised(e)
    case Ok(_) => Ok(Kept(msgs, loaderId))
  }

  /** What `_discard_non_page_messages` returns, or raises, for the
      navigate reply `pageData`. */
  function PageMessages(pageData: Dict, msgs: seq<Message>): (r: Outcome<seq<Message>>)
    ensures "loaderId" !in pageData ==> r == Ok([])
  {
    if "loaderId" !in pageData then Ok([]) else Belonging(msgs, pageData["loaderId"])
  }

  /** The filter raises iff the test raises on some message, and then it is
      the TypeError of the first such message; when every `params` present
      is a dictionary, it raises nothing and returns the belonging messages. */
  lemma BelongingRaises(msgs: seq<Message>, loaderId: Json)
    ensures Belonging(msgs, loaderId).Raised? <==>
      exists i :: 0 <= i < |msgs| && Keeps(msgs[i], loaderId).Raised?
    ensures Belonging(msgs, loaderId).Raised? ==>
      Belonging(msgs, loaderId).error == TypeError &&
      exists k :: 0 <= k < |msgs| && Keeps(msgs[k], loaderId).Raised? &&
                  forall j :: 0 <= j < k ==> Keeps(msgs[j], loaderId).Ok?
    ensures (forall i :: 0 <= i < |msgs| ==> "params" !in msgs[i] || msgs[i]["params"].JObject?) ==>
      Belonging(msgs, loaderId) == Ok(Kept(msgs, loaderId))
  {
    var f := KeepsFor(loaderId);
    assert forall m :: f(m) == Keeps(m, loaderId);
    CollectOk(f, msgs);
    if Collect(f, msgs).Raised? {
      CollectRaised(f, msgs);
    }
  }

  /** `a` is `b` with some elements left out, the rest in their order. */
  predicate IsSubsequence(a: seq<Message>, b: seq<Message>)
    decreases |b|
  {
    if a == [] then true
    else if b == [] then false
    else if a[|a| - 1] == b[|b| - 1] then IsSubsequence(a[..|a| - 1], b[..|b| - 1])
    else IsSubsequence(a, b[..|b| - 1])
  }

  /** A message is kept iff it is one of the input and belongs to the
      navigation; each kept message is kept as often as it occurs. */
  lemma {:induction false} KeptMembers(msgs: seq<Message>, loaderId: Json)
    ensures forall m :: m in Kept(msgs, loaderId) <==> m in msgs && BelongsTo(m, loaderId)
    ensures forall m :: multiset(Kept(msgs, loaderId))[m] ==
                       if BelongsTo(m, loaderId) then multiset(msgs)[m] else 0
    decreases |msgs|
  {
    if msgs != [] {
      var init := msgs[..|msgs| - 1];
      KeptMembers(init, loaderId);
      assert msgs == init + [msgs[|msgs| - 1]];
    }
  }

  /** The kept messages are in the order they arrived. */
  lemma {:induction false} KeptIsSubsequence(msgs: seq<Message>, loaderId: Json)
    ensures IsSubsequence(Kept(msgs, loaderId), msgs)
    decreases |msgs|
  {
    if msgs != [] {
      var init := msgs[..|msgs| - 1];
      var last := msgs[|msgs| - 1];
      var kept := Kept(msgs, loaderId);
      KeptIsSubsequence(init, loaderId);
      if BelongsTo(last, loaderId) {
        assert kept[..|kept| - 1] == Kept(init, loaderId);
      } else if kept != [] {
        KeptMembers(init, loaderId);
        assert kept == Kept(init, loaderId);
        assert kept[|kept| - 1] in Kept(init, loaderId);
        assert BelongsTo(kept[|kept| - 1], loaderId);
        assert msgs[..|msgs| - 1] == init;
      }
    }
  }

  /** `_discard_non_page_messages`. */
  method DiscardNonPageMessages(pageData: Dict, msgs: seq<Message>) returns (filtered: Outcome<seq<Message>>)
    ensures filtered == PageMessages(pageData, msgs)
  {
    if "loaderId" !in pageData {
      return Ok([]);
    }
    var loaderId := pageData["loaderId"];
    var kept: seq<Message> := [];
    for i := 0 to |msgs|
      invariant Collect(KeepsFor(loaderId), msgs[..i]).Ok?
      invariant kept == Kept(msgs[..i], loaderId)
    {
      assert msgs[..i + 1][..i] == msgs[..i];
      CollectStep(KeepsFor(loaderId), msgs, i);
      var keep := Keeps(msgs[i], loaderId);
      if keep.Raised? {
        CollectRaisedPrefix(KeepsFor(loaderId), msgs, i + 1);
        return Raised(keep.error);
      }
      if keep.value {
        kept := kept + [msgs[i]];
      }
    }
    assert msgs[..|msgs|] == msgs;
    return Ok(kept);
  }

  function NavigateCall(url: string): SocketCall {
    SendReturn("Page.navigate", map["url" := JStr(url)])
  }

  /** `open_url`, given the navigate reply and the messages read with it
      (from `send_return`) and what `read_until_events` reports. An
      exception from the filter escapes `open_url`. */
  function OpenUrl(url: string, pageResult: Reply, messagesBefore: seq<Message>,
                   eventsFound: bool, messagesAfter: seq<Message>): (r: Exchange<Outcome<Navigation>>)
    ensures !ReplyTruthy(pageResult) ==>
      r.value == Ok(NavigationFailed) && r.calls == [NavigateCall(url)]
    ensures ReplyTruthy(pageResult) ==>
      r.calls == [NavigateCall(url), ReadUntilEvents(LoadEvents)]
    ensures r.value == Ok(NavigationFailed) <==> !ReplyTruthy(pageResult) || !eventsFound
    ensures r.value.Raised? <==>
      ReplyTruthy(pageResult) && eventsFound && PageMessages(pageResult.value, messagesBefore).Raised?
    ensures r.value.Raised? ==> r.value.error == PageMessages(pageResult.value, messagesBefore).error
    ensures r.value.Ok? && r.value.value.PageLoaded? ==>
      r.value.value.trace == PageMessages(pageResult.value, messagesBefore).value + messagesAfter
  {
    if !ReplyTruthy(pageResult) then Exchange(Ok(NavigationFailed), [NavigateCall(url)])
    else
      var calls := [NavigateCall(url), ReadUntilEvents(LoadEvents)];
      if !eventsFound then Exchange(Ok(NavigationFailed), calls)
      else
        match PageMessages(pageResult.value, messagesBefore)
        case Raised(e) => Exchange(Raised(e), calls)
        case Ok(filtered) => Exchange(Ok(PageLoaded(filtered + messagesAfter)), calls)
  }

  /** A loaded page's trace is a prefix of messages read with the navigate
      command that all carry its loader id, in arrival order, followed by
      every message of the event wait, unfiltered. Without a loader id in the
      navigate reply, the trace is the event wait's messages alone. */
  lemma OpenUrlTraceScoped(url: string, pageResult: Reply, before: seq<Message>,
                           found: bool, after: seq<Message>)
    requires OpenUrl(url, pageResult, before, found, after).value.Ok?
    requires OpenUrl(url, pageResult, before, found, after).value.value.PageLoaded?
    ensures var trace := OpenUrl(url, pageResult, before, found, after).value.value.trace;
      var k := |trace| - |after|;
      && 0 <= k
      && trace[k..] == after
      && IsSubsequence(trace[..k], before)
      && ("loaderId" !in pageResult.value ==> trace == after)
      && ("loaderId" in pageResult.value ==>
            forall m :: m in trace[..k] ==> BelongsTo(m, pageResult.value["loaderId"]))
  {
    var trace := OpenUrl(url, pageResult, before, found, after).value.value.trace;
    var kept := PageMessages(pageResult.value, before).value;
    assert trace[..|kept|] == kept;
    if "loaderId" in pageResult.value {
      assert kept == Kept(before, pageResult.value["loaderId"]);
      KeptMembers(before, pageResult.value["loaderId"]);
      KeptIsSubsequence(before, pageResult.value["loaderId"]);
    }
  }

  // ---------------------------------------------------------------------
  // get_html_raw and get_html_dom

  /** `get_html_raw` for the request `requestId`, given the reply to
      `Network.getResponseBody`. */
  function GetHtmlRaw(requestId: Json, result: Reply): (r: Exchange<Json>)
    ensures r.calls == [Send("Network.getResponseBody", map["requestId" := requestId])]
    ensures r.value == if result.Some? && "body" in result.value then result.value["body"] else JStr("")
  {
    var calls := [Send("Network.getResponseBody", map["requestId" := requestId])];
    if !ReplyTruthy(result) then Exchange(JStr(""), calls)
    else if "body" in result.value then Exchange(result.value["body"], calls)
    else Exchange(JStr(""), calls)
  }

  const GetDocumentCall: SocketCall := Send("DOM.getDocument", map[])

  /** `get_html_dom`, given the reply to `DOM.getDocument` and the reply to
      `DOM.getOuterHTML` for the root node. */
  function GetHtmlDom(document: Reply, outerHtml: Reply): (r: Exchange<Outcome<Json>>)
    ensures 1 <= |r.calls| <= 2 && r.calls[0] == GetDocumentCall
    ensures !ReplyTruthy(document) ==> r == Exchange(Ok(JStr("")), [GetDocumentCall])
    ensures |r.calls| == 2 <==>
      ReplyTruthy(document) && "root" in document.value && document.value["root"].JObject? &&
      "nodeId" in document.value["root"].fields
    ensures |r.calls| == 2 ==>
      r.calls[1] == Send("DOM.getOuterHTML", map["nodeId" := document.value["root"].fields["nodeId"]])
    ensures |r.calls| == 2 ==>
      r.value == if !ReplyTruthy(outerHtml) then Ok(JStr(""))
                 else if "outerHTML" in outerHtml.value then Ok(outerHtml.value["outerHTML"])
                 else Raised(KeyError("outerHTML"))
    ensures |r.calls| == 1 && ReplyTruthy(document) ==> r.value.Raised?
  {
    if !ReplyTruthy(document) then Exchange(Ok(JStr("")), [GetDocumentCall])
    else if "root" !in document.value then Exchange(Raised(KeyError("root")), [GetDocumentCall])
    else
      var root := document.value["root"];
      if !root.JObject? then Exchange(Raised(TypeError), [GetDocumentCall])
      else if "nodeId" !in root.fields then Exchange(Raised(KeyError("nodeId")), [GetDocumentCall])
      else
        var calls := [GetDocumentCall, Send("DOM.getOuterHTML", map["nodeId" := root.fields["nodeId"]])];
        if !ReplyTruthy(outerHtml) then Exchange(Ok(JStr("")), calls)
        else if "outerHTML" in outerHtml.value then Exchange(Ok(outerHtml.value["outerHTML"]), calls)
        else Exchange(Raised(KeyError("outerHTML")), calls)
  }
}
