# page-walker core, modelled in Dafny

page-walker drives Chrome through the DevTools remote-debugging protocol,
collects what each page sends, and checks the page HTML with the v.Nu
validator. This project models two parts of it.

- **The DevTools client** (`RemoteDebug`, in `remote_debug.dfy`):
  - the Chrome command line built by the constructor;
  - the in-place rewrite of a configured cookie before `Network.setCookie`;
  - the cookie records built from a `Network.getCookies` reply;
  - `open_url`, which decides whether a navigation succeeded and assembles its message trace;
  - the loader-id filter that drops messages left over from an earlier navigation;
  - the two HTML fetchers.

  The socket that multiplexes the connection is not modelled. Its answers
  (the navigate reply, the messages read with it, whether the load events
  arrived, and the messages read while waiting) are parameters. The
  functions that may skip a socket call also return the list of calls they
  made. That is how "no event wait after a rejected navigation" is stated.
- **The validator queue** (`HtmlValidation`, in `html_validator.dfy`):
  - the `code_<page id>_<raw|dom>.html` naming of saved pages;
  - decoding that name back out of a v.Nu message with the pattern `code_(\d+)_(raw|dom).html`;
  - splitting the highlighted extract into three parts;
  - replacing curly quotes in descriptions;
  - building one log record per v.Nu message;
  - the `queue_current_size` counter that decides when v.Nu runs.

  The v.Nu run is not modelled. The messages it reports are a parameter.

Two support modules hold the Python semantics both files rely on:
- `PyValues` (`py_values.dfy`): JSON values, Python truthiness, and exceptions as values (`Outcome`). It also has `Collect`, a list-building loop that stops at the first exception.
- `PyStrings` (`py_strings.dfy`): slices with negative and out-of-range bounds, single-character `str.replace`, `"%s" % n`, `int()` of a digit string, and POSIX `os.path.join`.

Python exceptions the modelled code can raise are results, not preconditions:
- `KeyError` for a missing key;
- `IndexError` when `re.findall` finds nothing;
- `TypeError` for subscripting something that is not a dictionary, for `in` on null, a boolean or a number (remote_debug.py:134), and for iterating a truthy `cookies` value that is not a list (remote_debug.py:97).

Behaviour of the code worth knowing, which the model keeps:
- `open_url` gives up early only when the navigate reply is falsy (remote_debug.py:113). A truthy reply without `loaderId` still waits for the load events. If they arrive, the trace is the waited-for messages alone, because the filter keeps no earlier message.
- Once the navigate reply carries `loaderId` (and, for `open_url`, once the load events were seen), the loader-id filter (remote_debug.py:134) raises TypeError, and so does `open_url`, when a message's `params` is null, a boolean or a number, or is a list or string that contains `"loaderId"`. A list or string without it makes the message be dropped.

## Model

| member | source | states |
|---|---|---|
| PyValues.CollectOk | pagewalker/pagewalker/analyzer/html_validator.py:77-79 | a loop that appends `f(x)` for each element succeeds iff every element does; then it has one result per element, in order |
| PyValues.CollectRaised | pagewalker/pagewalker/analyzer/html_validator.py:77-79 | when that loop raises, the exception is the first failing element's, and every earlier element succeeded |
| PyStrings.Slice | pagewalker/pagewalker/analyzer/html_validator.py:177-179 | `s[lo:hi]`: never longer than `s`; the contiguous run between the normalised bounds; empty when the bounds cross |
| PyStrings.SliceThreeWay | pagewalker/pagewalker/analyzer/html_validator.py:177-179 | cutting at two ordered non-negative points and concatenating the three slices gives back the sequence |
| PyStrings.Replace | pagewalker/pagewalker/analyzer/devtools/remote_debug.py:20 | single-character `replace` keeps the length; each position holds the substitute if it held the target, and is unchanged otherwise |
| PyStrings.NatToString | pagewalker/pagewalker/analyzer/html_validator.py:144 | `"%s" % n` is a non-empty run of digits, with no leading zero except for 0 itself |
| PyStrings.ParseNatToString | pagewalker/pagewalker/analyzer/html_validator.py:151-152 | `int()` of the decimal text of `n` is `n` |
| RemoteDebug.CommandParts | pagewalker/pagewalker/analyzer/devtools/remote_debug.py:17-34 | no command line without a Chrome binary; otherwise the five fixed arguments in order (window size with every `x` turned into `,`), then `--headless` and `--disable-gpu` iff headless, and `--ignore-certificate-errors` iff certificates are ignored, last |
| RemoteDebug.RewriteCookie | pagewalker/pagewalker/analyzer/devtools/remote_debug.py:71-77 | a cookie without `domain` gains `url` = the start URL; `httponly` is gone and `httpOnly` holds its former value; every other key is untouched; the result always has `domain` or `url` |
| RemoteDebug.RewriteCookieIdempotent | pagewalker/pagewalker/analyzer/devtools/remote_debug.py:66-77 | rewriting an already rewritten cookie changes nothing, so the configured cookies edited in place are sent alike on every session |
| RemoteDebug.SetCookie | pagewalker/pagewalker/analyzer/devtools/remote_debug.py:71-78 | the caller's dictionary is rewritten in place as above, and that same dictionary is what is sent with `Network.setCookie` |
| RemoteDebug.ProjectCookie | pagewalker/pagewalker/analyzer/devtools/remote_debug.py:98-103 | a cookie yields a record iff it is a dictionary with `name`, `value`, `domain` and `path`; the record has exactly those four keys, copied |
| RemoteDebug.CookiesFromReplyShape | pagewalker/pagewalker/analyzer/devtools/remote_debug.py:92-104 | a falsy reply or an empty cookie list gives `[]`; otherwise one record per cookie, in order, each with exactly the four copied fields |
| RemoteDebug.GetCookiesForUrl | pagewalker/pagewalker/analyzer/devtools/remote_debug.py:92-104 | it sends `Network.getCookies` for the given URL; the appending loop returns exactly the records, or the exception, that the reply determines |
| RemoteDebug.PageMessages | pagewalker/pagewalker/analyzer/devtools/remote_debug.py:127-131 | a navigate reply without `loaderId` keeps no message |
| RemoteDebug.Keeps | pagewalker/pagewalker/analyzer/devtools/remote_debug.py:134 | the per-message test is true iff `params` is a dictionary whose `loaderId` equals the navigation's; it can only raise TypeError, and only for a `params` that is not a dictionary; it always raises for a scalar `params`, and for a list `params` exactly when the list holds `"loaderId"` |
| RemoteDebug.BelongingRaises | pagewalker/pagewalker/analyzer/devtools/remote_debug.py:133-137 | the filter raises iff the test raises on some message, and then it raises the TypeError of the first such message; when every `params` present is a dictionary it returns the belonging messages |
| RemoteDebug.KeptMembers | pagewalker/pagewalker/analyzer/devtools/remote_debug.py:133-137 | a message is kept iff it was received and its `params.loaderId` equals the reply's; each kept message is kept as many times as it arrived; messages without a loader id are dropped |
| RemoteDebug.KeptIsSubsequence | pagewalker/pagewalker/analyzer/devtools/remote_debug.py:133-137 | the kept messages are a subsequence of the received ones, in arrival order |
| RemoteDebug.DiscardNonPageMessages | pagewalker/pagewalker/analyzer/devtools/remote_debug.py:127-137 | the appending loop returns exactly the messages that belong to the navigation, or the first exception the test raises |
| RemoteDebug.OpenUrl | pagewalker/pagewalker/analyzer/devtools/remote_debug.py:111-125 | a falsy navigate reply fails after the navigate call alone; otherwise it waits for the two load events; it returns False iff the reply is falsy or the events were not seen; it raises iff the filter does; a loaded page's trace is the filtered earlier messages followed by the waited-for messages |
| RemoteDebug.OpenUrlTraceScoped | pagewalker/pagewalker/analyzer/devtools/remote_debug.py:124-125 | a loaded page's trace ends with every waited-for message, unfiltered; before them come only earlier messages carrying the navigation's loader id, in arrival order; with no loader id, only the waited-for messages |
| RemoteDebug.GetHtmlRaw | pagewalker/pagewalker/analyzer/devtools/remote_debug.py:139-143 | it sends `Network.getResponseBody` for the given request id; the result is the response body when the reply has one, and the empty string for a missing reply or a reply without `body` |
| RemoteDebug.GetHtmlDom | pagewalker/pagewalker/analyzer/devtools/remote_debug.py:145-151 | a falsy document reply gives `""` after one call; the outer-HTML request is made iff the document has a root node id, and carries that id; a falsy outer-HTML reply gives `""` |
| HtmlValidation.DigitRun | pagewalker/pagewalker/analyzer/html_validator.py:151 | `\d+` takes the whole run of digits from a position: all digits, and no digit right after |
| HtmlValidation.FileNameParts | pagewalker/pagewalker/analyzer/html_validator.py:144 | a saved file's name is `code_`, the page id's decimal digits, then the nine characters `_<type>.html` |
| HtmlValidation.MatchFileName | pagewalker/pagewalker/analyzer/html_validator.py:144-153 | the pattern applied to a saved file's name reads back its page id and type |
| HtmlValidation.FileNameRoundTrip | pagewalker/pagewalker/analyzer/html_validator.py:144-153 | a text ending in `code_<id>_<type>.html` decodes to that id and type, provided no earlier match starts in the text |
| HtmlValidation.FileNameRoundTripAfterPath | pagewalker/pagewalker/analyzer/html_validator.py:144-153 | the round trip holds after any prefix that does not spell `code_`, such as the validator's directory path |
| HtmlValidation.SplitExtract | pagewalker/pagewalker/analyzer/html_validator.py:173-181 | the extract is always split into exactly three parts |
| HtmlValidation.SplitExtractRoundTrip | pagewalker/pagewalker/analyzer/html_validator.py:173-181 | with a non-negative start and a non-negative `hiliteLength`, the three parts concatenate to the extract |
| HtmlValidation.SplitExtractHilite | pagewalker/pagewalker/analyzer/html_validator.py:176-178 | the middle part is the slice `extract[start:start+hiliteLength]` and is never longer than `hiliteLength` |
| HtmlValidation.SplitExtractWithoutLength | pagewalker/pagewalker/analyzer/html_validator.py:176-179 | without `hiliteLength` the end is 0: the middle part is empty, the last part is the whole extract, the first is `extract[:start]` |
| HtmlValidation.SplitExtractWithoutLengthRepeatsText | pagewalker/pagewalker/analyzer/html_validator.py:176-179 | for extract `abc` with start 1 and no length the parts are `a`, empty, `abc`, which do not concatenate back to `abc` |
| HtmlValidation.ReplaceUnicodeQuotes | pagewalker/pagewalker/analyzer/html_validator.py:168-171 | same length; no U+201C or U+201D left; those become `{` and `}`; every other character is unchanged |
| HtmlValidation.ReplaceUnicodeQuotesIdempotent | pagewalker/pagewalker/analyzer/html_validator.py:168-171 | replacing the quotes twice is the same as once |
| HtmlValidation.SavedNamesDecode | pagewalker/pagewalker/analyzer/html_validator.py:143-153 | every file in the queue directory, whose names the queue keeps in the saved form, decodes back to the page id and type it was saved under |
| HtmlValidation.ParseOutputMessage | pagewalker/pagewalker/analyzer/html_validator.py:150-166 | a record iff the message has a url containing a saved-file name, a type and a text; otherwise the KeyError or IndexError raised first; `is_error` is 1 iff the type is `error` and else 0; `line` is `lastLine` or 0; `html_type_id` is 1 for raw and 2 for dom |
| HtmlValidation.ParseSavedPageMessage | pagewalker/pagewalker/analyzer/html_validator.py:143-166 | a message about a file saved under a directory path is attributed to the page id and type the file was saved for |
| HtmlValidation.ParseMessages | pagewalker/pagewalker/analyzer/html_validator.py:77-79 | the parsing loop returns one record per message, in order, or the first exception |
| HtmlValidation.HtmlValidator.constructor | pagewalker/pagewalker/analyzer/html_validator.py:11-20 | the counter starts at 0 with maximum 40 and an empty queue directory |
| HtmlValidation.HtmlValidator.SaveHtmlToFile | pagewalker/pagewalker/analyzer/html_validator.py:143-148 | the page is stored under `code_<id>_<type>.html`, adding at most one file, and every stored name keeps the form `code_<id>_<type>.html` |
| HtmlValidation.HtmlValidator.AddToQueue | pagewalker/pagewalker/analyzer/html_validator.py:55-60 | when enabled, both renderings are saved and the counter grows by exactly 2; when disabled nothing changes; the counter stays twice the pages queued and bounds the number of files |
| HtmlValidation.HtmlValidator.ExecuteVnu | pagewalker/pagewalker/analyzer/html_validator.py:72-82 | at counter 0 it returns `[]` and changes nothing; otherwise it returns the parsed messages and then leaves the counter at 0 and the directory empty; a parse exception leaves the state as it was |
| HtmlValidation.HtmlValidator.Validate | pagewalker/pagewalker/analyzer/html_validator.py:66-70 | disabled, nothing runs or changes; enabled, the logs saved are those of `_execute_vnu` |
| HtmlValidation.HtmlValidator.ValidateIfFullQueue | pagewalker/pagewalker/analyzer/html_validator.py:62-64 | validation runs iff the counter is at least the maximum; a successful run resets the counter to 0 |

## Left out

- The DevTools socket (`send`, `send_return`, `read_until_events`, `read_until_timeout`): its file is not part of this model. It does blocking network I/O, so its results are parameters.
- `wait` and `get_version`: each forwards a single socket call.
- `start_session`: launching Chrome, opening the log file, cleaning the profile directory and printing are process and file I/O.
- `end_session`: it closes the page connection, and sends a browser close iff `chrome_headless` or `chrome_close_on_finish` is set. Both are socket calls, and the socket is not modelled.
- `_print_start_message` and `_enable_features`: console output and a fixed list of socket sends.
- `_set_custom_cookies`, `_set_http_auth_header`, `_initial_actions` and `_update_user_agent`: only `start_session` calls them. They use modules that are not part of this model (base64 encoding, initial actions, the global configuration).
- The log-file path of the `DevtoolsRemoteDebug` constructor is not modelled. `os.path.join` is modelled with POSIX separators only.
- `error_utils.chrome_not_found` is not part of this model. CommandParts treats it as ending the program, so a missing binary yields no command line.
- The `HtmlValidator` constructor's v.Nu version check, its v.Nu command line and the directory cleaning: Java subprocess calls and file-system work.
- `_get_vnu_json_result`, `_exec_command`, `json.loads` and the v.Nu failure exit: subprocess I/O. The reported messages are a parameter of ExecuteVnu.
- `_save_result_to_database`, `_get_message_id`, `_get_extract_id`, `set_db_connection` and `get_vnu_version`: SQLite and accessors with no logic. Validate returns the logs it would save.
- The `print` in `_execute_vnu` and the UTF-8 encoding and writing in `_save_html_to_file`: the queue directory is a map from file name to HTML text.
- `json.dumps` of the extract parts: a log record keeps the three-part list itself.
- `re` in general: only the one pattern is modelled, and `\d` only as ASCII digits. Python also accepts other Unicode decimal digits there.
- VnuMessage: v.Nu's JSON output fixes the types of the message fields (`url`, `type`, `message` and `extract` are strings; `lastLine`, `hiliteStart` and `hiliteLength` are integers) and always has the `messages` key. So the model does not raise the TypeErrors Python would raise for other types (`re.findall` on a non-string `url`, `start + hiliteLength` on null). It also does not raise the KeyError of a missing `messages` key (html_validator.py:78).
- JSON floats, and Python's `1 == True` equality, are not modelled in `Json`.
- Dictionary key order is not modelled. Python moves `httpOnly` to the end of the cookie dictionary.
