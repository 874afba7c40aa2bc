/** `TelegramBot` (src/bot_gateway/bots/telegram_bot.py): webhook
    verification, command parsing, user authorisation and reply formatting.
    The decoded JSON of a request or an update is a `Json` value. */
module Telegram {
  import opened Wrappers
  import Dotenv

  /** Decoded JSON; objects keep their keys in order. */
  datatype Json =
    | JNull
    | JBool(b: bool)
    | JInt(i: int)
    | JStr(s: string)
    | JList(items: seq<Json>)
    | JObject(entries: seq<(string, Json)>)

  /** The exceptions the modelled code can raise. */
  datatype BotError =
    | AttributeError
    | TypeError
    /** `parse_command` turns any failure into a ValueError whose message
        starts with "Invalid command format: ". */
    | InvalidCommand

  /** `d.get(key, default)` on an object. */
  function Get(entries: seq<(string, Json)>, key: string, default: Json): (r: Json)
    ensures (forall i :: 0 <= i < |entries| ==> entries[i].0 != key) ==> r == default
    ensures (exists i :: 0 <= i < |entries| && entries[i].0 == key) ==>
              exists i :: 0 <= i < |entries| && entries[i] == (key, r)
  {
    if entries == [] then default
    else if entries[0].0 == key then entries[0].1
    else Get(entries[1..], key, default)
  }

  /** Python truthiness. */
  predicate Truthy(v: Json)
  {
    match v
    case JNull => false
    case JBool(b) => b
    case JInt(i) => i != 0
    case JStr(s) => s != []
    case JList(items) => items != []
    case JObject(entries) => entries != []
  }

  const SecretHeader := "x-telegram-bot-api-secret-token"

  predicate IsAscii(s: string)
  {
    forall i :: 0 <= i < |s| ==> s[i] < 128 as char
  }

  /** `verify_webhook`: a missing or empty secret-token header fails;
      otherwise the token must equal the webhook secret. `hmac.compare_digest`
      accepts only strings of ASCII characters; `.get` needs an object. */
  function VerifyWebhook(webhookSecret: string, request: seq<(string, Json)>): (r: Result<bool, BotError>)
    ensures var headers := Get(request, "headers", JObject([]));
      && (!headers.JObject? <==> r == Err(AttributeError))
      && (headers.JObject? ==>
            var token := Get(headers.entries, SecretHeader, JNull);
            && (!Truthy(token) ==> r == Ok(false))
            // A present token is compared with the secret when both are ASCII
            // strings; `compare_digest` raises on anything else.
            && (Truthy(token) && token.JStr? && IsAscii(token.s) && IsAscii(webhookSecret) ==>
                  r == Ok(token.s == webhookSecret))
            && (Truthy(token) && !(token.JStr? && IsAscii(token.s) && IsAscii(webhookSecret)) ==>
                  r == Err(TypeError)))
  {
    var headers := Get(request, "headers", JObject([]));
    if !headers.JObject? then Err(AttributeError)
    else
      var token := Get(headers.entries, SecretHeader, JNull);
      if !Truthy(token) then Ok(false)
      else if !token.JStr? || !IsAscii(token.s) || !IsAscii(webhookSecret) then Err(TypeError)
      else Ok(token.s == webhookSecret)
  }

  /** The webhook is accepted exactly when the header carries the secret
      itself, and the secret is non-empty. */
  lemma VerifyWebhookAccepts(webhookSecret: string, request: seq<(string, Json)>)
    ensures VerifyWebhook(webhookSecret, request) == Ok(true) <==>
      && Get(request, "headers", JObject([])).JObject?
      && Get(Get(request, "headers", JObject([])).entries, SecretHeader, JNull) == JStr(webhookSecret)
      && webhookSecret != [] && IsAscii(webhookSecret)
  {
  }

  /** A request with headers but no token header is refused, whatever the
      secret. */
  lemma MissingTokenRefused(webhookSecret: string, headers: seq<(string, Json)>)
    requires forall i :: 0 <= i < |headers| ==> headers[i].0 != SecretHeader
    ensures VerifyWebhook(webhookSecret, [("headers", JObject(headers))]) == Ok(false)
  {
  }

  /** The end of the word that starts at `i`. */
  function WordEnd(s: string, i: nat): (j: nat)
    requires i <= |s|
    ensures i <= j <= |s|
    ensures forall k :: i <= k < j ==> !Dotenv.IsSpace(s[k])
    ensures j < |s| ==> Dotenv.IsSpace(s[j])
    decreases |s| - i
  {
    if i == |s| || Dotenv.IsSpace(s[i]) then i else WordEnd(s, i + 1)
  }

  /** A non-empty run of characters without whitespace. */
  predicate IsWord(w: string)
  {
    w != [] && forall k :: 0 <= k < |w| ==> !Dotenv.IsSpace(w[k])
  }

  /** `str.split()` without arguments: the maximal runs of non-whitespace. */
  function Words(s: string): (ws: seq<string>)
    ensures forall i :: 0 <= i < |ws| ==> IsWord(ws[i])
    ensures (forall k :: 0 <= k < |s| ==> Dotenv.IsSpace(s[k])) <==> ws == []
    decreases |s|
  {
    if s == [] then []
    else if Dotenv.IsSpace(s[0]) then
      var ws := Words(s[1..]);
      assert (forall k :: 0 <= k < |s| ==> Dotenv.IsSpace(s[k])) <==>
             (forall k :: 0 <= k < |s[1..]| ==> Dotenv.IsSpace(s[1..][k])) by {
        if forall k :: 0 <= k < |s[1..]| ==> Dotenv.IsSpace(s[1..][k]) {
          forall k | 0 <= k < |s|
            ensures Dotenv.IsSpace(s[k])
          {
            if k > 0 {
              assert s[k] == s[1..][k - 1];
            }
          }
        }
      }
      ws
    else
      var j := WordEnd(s, 0);
      [s[..j]] + Words(s[j..])
  }

  /** `" ".join(words)`. */
  function JoinWords(ws: seq<string>): string
  {
    if ws == [] then ""
    else if |ws| == 1 then ws[0]
    else ws[0] + " " + JoinWords(ws[1..])
  }

  /** A word alone splits into itself. */
  lemma WordsSingle(w: string)
    requires IsWord(w)
    ensures Words(w) == [w]
  {
    assert WordEnd(w, 0) == |w|;
    assert w[..|w|] == w && w[|w|..] == [];
  }

  /** A leading space is skipped. */
  lemma WordsAfterSpace(rest: string)
    ensures Words(" " + rest) == Words(rest)
  {
    assert (" " + rest)[1..] == rest;
  }

  /** A word followed by a space is split off first. */
  lemma WordsStep(w: string, rest: string)
    requires IsWord(w)
    ensures Words(w + " " + rest) == [w] + Words(rest)
  {
    var s := w + " " + rest;
    assert s == w + (" " + rest);
    assert WordEnd(s, 0) == |w| by {
      assert s[|w|] == ' ';
      assert forall k :: 0 <= k < |w| ==> s[k] == w[k];
    }
    assert s[..|w|] == w;
    assert s[|w|..] == " " + rest;
    WordsAfterSpace(rest);
  }

  /** Splitting words joined by single spaces gives the words back. */
  lemma {:induction false} WordsJoin(ws: seq<string>)
    requires forall i :: 0 <= i < |ws| ==> IsWord(ws[i])
    ensures Words(JoinWords(ws)) == ws
    decreases |ws|
  {
    if |ws| == 1 {
      WordsSingle(ws[0]);
    } else if |ws| > 1 {
      WordsStep(ws[0], JoinWords(ws[1..]));
      WordsJoin(ws[1..]);
      assert [ws[0]] + ws[1..] == ws;
    }
  }

  /** `str()` of a JSON value, as Python prints the decoded object. */
  function PyStr(v: Json): string
  {
    match v
    case JStr(s) => s
    case _ => PyRepr(v)
  }

  /** `repr()` of a JSON value; string escapes are not reproduced. */
  function PyRepr(v: Json): string
    decreases v, 1
  {
    match v
    case JNull => "None"
    case JBool(b) => if b then "True" else "False"
    case JInt(i) => IntToString(i)
    case JStr(s) => "'" + s + "'"
    case JList(items) => "[" + ReprItems(v, 0) + "]"
    case JObject(entries) => "{" + ReprEntries(v, 0) + "}"
  }

  function ReprItems(v: Json, i: nat): string
    requires v.JList? && i <= |v.items|
    decreases v, 0, |v.items| - i
  {
    if i == |v.items| then ""
    else PyRepr(v.items[i]) + (if i + 1 < |v.items| then ", " + ReprItems(v, i + 1) else "")
  }

  function ReprEntries(v: Json, i: nat): string
    requires v.JObject? && i <= |v.entries|
    decreases v, 0, |v.entries| - i
  {
    if i == |v.entries| then ""
    else
      "'" + v.entries[i].0 + "': " + PyRepr(v.entries[i].1)
      + (if i + 1 < |v.entries| then ", " + ReprEntries(v, i + 1) else "")
  }

  function NatToString(n: nat): (s: string)
    ensures s != [] && forall k :: 0 <= k < |s| ==> '0' <= s[k] <= '9'
  {
    if n < 10 then [(n + 48) as char] else NatToString(n / 10) + [(n % 10 + 48) as char]
  }

  function IntToString(i: int): string
  {
    if i < 0 then "-" + NatToString(-i) else NatToString(i)
  }

  /** `BotCommand`. */
  datatype BotCommand = BotCommand(command: string, userId: string, chatId: string, args: Option<string>)

  /** The command word and the argument string of a message text: the first
      word, or "" when there is none, and the remaining words joined by single
      spaces, or none when there are no remaining words. */
  function SplitCommand(text: string): (r: (string, Option<string>))
    ensures var ws := Words(text);
      && (ws == [] <==> r.0 == "")
      && (ws != [] ==> r.0 == ws[0])
      && (r.1.Some? <==> |ws| > 1)
      // The arguments are the remaining words joined by single spaces, and
      // they split back into those words.
      && (|ws| > 1 ==> r.1 == Some(JoinWords(ws[1..])) && Words(r.1.value) == ws[1..])
  {
    var ws := Words(text);
    (if ws == [] then "" else ws[0],
     if |ws| > 1 then WordsJoin(ws[1..]); Some(JoinWords(ws[1..])) else None)
  }

  /** `parse_command`: the command and arguments come from the message text as
      `SplitCommand` describes. Missing sender and chat ids become the string
      "None". A message, sender or chat that is not an object, or a text that
      is not a string, is an invalid command. */
  function ParseCommand(update: seq<(string, Json)>): (r: Result<BotCommand, BotError>)
    ensures r.Ok? ==>
      var message := Get(update, "message", JObject([]));
      message.JObject? &&
      (var text := Get(message.entries, "text", JStr(""));
       text.JStr? && (r.value.command, r.value.args) == SplitCommand(text.s))
    // Parsing succeeds exactly when the message, the sender and the chat are
    // objects and the text is a string; the ids are `str()` of the `id` entries.
    ensures var message := Get(update, "message", JObject([]));
      message.JObject? ==>
        var text := Get(message.entries, "text", JStr(""));
        var sender := Get(message.entries, "from", JObject([]));
        var chat := Get(message.entries, "chat", JObject([]));
        && (r.Ok? <==> text.JStr? && sender.JObject? && chat.JObject?)
        && (r.Ok? ==> r.value.userId == PyStr(Get(sender.entries, "id", JNull))
                      && r.value.chatId == PyStr(Get(chat.entries, "id", JNull)))
    ensures !Get(update, "message", JObject([])).JObject? ==> r == Err(InvalidCommand)
    ensures r.Err? ==> r.error == InvalidCommand
  {
    var message := Get(update, "message", JObject([]));
    if !message.JObject? then Err(InvalidCommand)
    else
      var text := Get(message.entries, "text", JStr(""));
      if !text.JStr? then Err(InvalidCommand)
      else
        var (command, args) := SplitCommand(text.s);
        var sender := Get(message.entries, "from", JObject([]));
        if !sender.JObject? then Err(InvalidCommand)
        else
          var chat := Get(message.entries, "chat", JObject([]));
          if !chat.JObject? then Err(InvalidCommand)
          else
            Ok(BotCommand(command, PyStr(Get(sender.entries, "id", JNull)), PyStr(Get(chat.entries, "id", JNull)), args))
  }

  /** A text typed as a command followed by argument words splits back into
      that command and those arguments, joined by single spaces. */
  lemma {:induction false} SplitTypedCommand(command: string, args: seq<string>)
    requires IsWord(command) && forall i :: 0 <= i < |args| ==> IsWord(args[i])
    ensures SplitCommand(JoinWords([command] + args)) == (command, if args == [] then None else Some(JoinWords(args)))
  {
    WordsJoin([command] + args);
    assert ([command] + args)[1..] == args;
  }

  /** A message with a text, a sender object and a chat object parses into
      the split text and the senders' and chat's ids. */
  lemma ParseMessage(text: string, sender: seq<(string, Json)>, chat: seq<(string, Json)>)
    ensures var update := [("message", JObject([("text", JStr(text)), ("from", JObject(sender)), ("chat", JObject(chat))]))];
      ParseCommand(update) == Ok(BotCommand(SplitCommand(text).0, PyStr(Get(sender, "id", JNull)),
                                            PyStr(Get(chat, "id", JNull)), SplitCommand(text).1))
  {
    var message := JObject([("text", JStr(text)), ("from", JObject(sender)), ("chat", JObject(chat))]);
    assert Get([("message", message)], "message", JObject([])) == message;
    assert Get(message.entries, "text", JStr("")) == JStr(text);
    assert Get(message.entries, "from", JObject([])) == JObject(sender);
    assert "text"[0] != "chat"[0] && "from"[0] != "chat"[0];
    assert message.entries[1..][1..] == [("chat", JObject(chat))];
    assert Get(message.entries, "chat", JObject([])) == Get(message.entries[1..][1..], "chat", JObject([]));
  }

  /** A message typed as a command followed by argument words, from a sender
      and a chat with integer ids, parses back into that command, those ids
      and those arguments. */
  lemma ParseTypedCommand(command: string, args: seq<string>, sender: int, chat: int)
    requires IsWord(command) && forall i :: 0 <= i < |args| ==> IsWord(args[i])
    ensures var text := JoinWords([command] + args);
      var update := [("message", JObject([("text", JStr(text)), ("from", JObject([("id", JInt(sender))])),
                                          ("chat", JObject([("id", JInt(chat))]))]))];
      ParseCommand(update) == Ok(BotCommand(command, IntToString(sender), IntToString(chat),
                                            if args == [] then None else Some(JoinWords(args))))
  {
    SplitTypedCommand(command, args);
    ParseMessage(JoinWords([command] + args), [("id", JInt(sender))], [("id", JInt(chat))]);
    IntegerId(sender);
    IntegerId(chat);
  }

  /** An object whose `id` is an integer reads as that integer's digits. */
  lemma IntegerId(n: int)
    ensures PyStr(Get([("id", JInt(n))], "id", JNull)) == IntToString(n)
  {
  }

  /** `is_user_authorized`: the allowed users are kept as a set. */
  function IsUserAuthorized(allowedUsers: seq<string>, userId: string): (r: bool)
    ensures r <==> userId in allowedUsers
  {
    userId in (set u | u in allowedUsers)
  }

  /** Authorisation is membership in the configured list. */
  lemma AuthorizedIffListed(allowedUsers: seq<string>, userId: string)
    ensures IsUserAuthorized(allowedUsers, userId) <==> exists i :: 0 <= i < |allowedUsers| && allowedUsers[i] == userId
  {
  }

  /** The handlers of the command table. */
  datatype Handler = HandleScan | HandleTrending | HandleHealth | HandleHelp

  /** The command table built in `__init__`. */
  function CommandTable(): (table: map<string, Handler>)
    ensures table.Keys == {"/scan", "/trending", "/health", "/help"}
  {
    map["/scan" := HandleScan, "/trending" := HandleTrending, "/health" := HandleHealth, "/help" := HandleHelp]
  }

  /** Each command has its own handler. */
  lemma CommandTableInjective()
    ensures forall a, b :: a in CommandTable() && b in CommandTable() && a != b ==> CommandTable()[a] != CommandTable()[b]
  {
  }

  /** `BotResponse`. */
  datatype BotResponse = BotResponse(success: bool, message: string, data: Option<seq<(string, Json)>>)

  /** A formatted reply: plain text, or one of the two reports whose layout
      (number formatting included) is not modelled. */
  datatype Reply = Text(text: string) | TrendingReport(stocks: Json) | ScanReport(data: seq<(string, Json)>)

  predicate HasKey(entries: seq<(string, Json)>, key: string)
  {
    exists i :: 0 <= i < |entries| && entries[i].0 == key
  }

  const ErrorPrefix := "❌ Error: "
  const OkPrefix := "✅ "
  const NoTrending := "No trending stocks found"

  /** `format_response`: a failure is an error line; a success without data
      is a check-mark line; data holding "trending" is the trending report
      (even when it also holds "scan"), data holding "scan" the scan report;
      any other data is printed after the message. */
  function FormatResponse(response: BotResponse): (r: Reply)
    ensures !response.success ==> r == Text(ErrorPrefix + response.message)
    ensures response.success && (response.data.None? || response.data.value == []) ==> r == Text(OkPrefix + response.message)
    ensures response.success && response.data.Some? && HasKey(response.data.value, "trending") ==>
              r == FormatTrending(response.data.value)
    ensures response.success && response.data.Some? && response.data.value != []
            && !HasKey(response.data.value, "trending") && HasKey(response.data.value, "scan") ==>
              r == ScanReport(response.data.value)
  {
    if !response.success then Text(ErrorPrefix + response.message)
    else if response.data.None? || response.data.value == [] then Text(OkPrefix + response.message)
    else
      var data := response.data.value;
      if HasKey(data, "trending") then FormatTrending(data)
      else if HasKey(data, "scan") then ScanReport(data)
      else Text(OkPrefix + response.message + "\n" + PyRepr(JObject(data)))
  }

  /** `_format_trending_response`: an empty (or otherwise falsy) list of
      trending stocks has its own message. */
  function FormatTrending(data: seq<(string, Json)>): (r: Reply)
    ensures !Truthy(Get(data, "trending", JList([]))) <==> r == Text(NoTrending)
  {
    var stocks := Get(data, "trending", JList([]));
    if !Truthy(stocks) then Text(NoTrending) else TrendingReport(stocks)
  }

  /** Failures and successes are told apart by their first character. */
  lemma ReplyMarks(response: BotResponse)
    ensures FormatResponse(response).Text? && FormatResponse(response).text != NoTrending ==>
              FormatResponse(response).text[0] == (if response.success then '✅' else '❌')
  {
  }
}
