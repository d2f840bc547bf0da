/** Keyboards: parsed from Bot API objects, and rendered back to them. A Go string is any sequence
    of bytes, here of characters below 256, and MTProto texts and callback data may be any of them;
    writing one as JSON and reading it back makes it valid UTF-8. */
module ReplyMarkup {

  datatype Option<T> = None | Some(value: T)

  /** What a string is after it has been written as JSON and read back: the same if it is valid
      UTF-8, and otherwise one with replacement characters for the bytes that are not. */
  type Coercion = string -> string

  predicate Survives(c: Coercion, s: string) { c(s) == s }

  /** MTProto buttons, those that the translation tells apart; Absent is a nil button. */
  datatype Button =
    | Absent
    | Plain(text: string)
    | URL(text: string, url: string)
    | Callback(text: string, data: string)
    | SimpleWebView(text: string, url: string)
    | WebView(text: string, url: string)
    | URLAuth(text: string, url: string, fwdText: string, buttonID: int)
    | InputURLAuth(text: string, url: string, fwdText: string, requestWriteAccess: bool)
    | SwitchInline(text: string, query: string, samePeer: bool)
    | Copy(text: string, copyText: string)
    | Buy(text: string)
    | Game(text: string)
    | RequestPhone(text: string)
    | RequestGeoLocation(text: string)
    | RequestPoll(text: string)
    | Other(text: string)

  datatype Markup =
    | Nothing
    | Inline(rows: seq<seq<Button>>)
    | Keyboard(rows: seq<seq<Button>>, resize: bool, singleUse: bool, selective: bool, placeholder: string)
    | Hide(selective: bool)
    | ForceReply(selective: bool, placeholder: string)

  /** A decoded element of `inline_keyboard`; callbackGame is raw JSON text, empty if absent. */
  datatype InlineJson = BadInline | InlineJson(
    text: string, url: string, callbackData: string, webApp: Option<string>, loginURL: Option<Login>,
    switchInline: Option<string>, switchInlineCurrent: Option<string>, copyText: Option<string>, pay: bool,
    callbackGame: string)

  datatype Login = Login(url: string, forwardText: string, requestWriteAccess: bool)

  /** A decoded element of `keyboard`. */
  datatype ReplyJson = BadReply | ReplyJson(
    text: string, requestContact: bool, requestLocation: bool, requestPoll: bool, webApp: Option<string>)

  datatype MarkupJson = BadMarkup | MarkupJson(
    inlineKeyboard: seq<seq<InlineJson>>, keyboard: seq<seq<ReplyJson>>, removeKeyboard: bool, forceReply: bool,
    selective: bool, resize: bool, oneTime: bool, placeholder: string)

  // ---- what the two kinds of object say ----

  /** Some member that decides the kind of an inline button is there. */
  predicate Usable(j: InlineJson) {
    j.InlineJson? &&
    (j.url != "" || j.callbackData != "" || j.webApp.Some? || j.loginURL.Some? || j.switchInline.Some?
     || j.switchInlineCurrent.Some? || j.copyText.Some? || j.pay || j.callbackGame != "")
  }

  /** Those members, in the order in which they count. */
  function Given(j: InlineJson): (r: seq<bool>)
    requires j.InlineJson?
    ensures |r| == 9 && (true in r <==> Usable(j))
  {
    [j.url != "", j.callbackData != "", j.webApp.Some?, j.loginURL.Some?, j.switchInline.Some?,
     j.switchInlineCurrent.Some?, j.copyText.Some?, j.pay, j.callbackGame != ""]
  }

  predicate First(j: InlineJson, k: nat)
    requires j.InlineJson? && k < 9
  {
    Given(j)[k] && forall i :: 0 <= i < k ==> !Given(j)[i]
  }

  /** b is the button that an element of `inline_keyboard` asks for: of the kind that the first member
      given decides, each of its fields the JSON member of that name. */
  predicate InlineIs(j: InlineJson, b: Button) {
    && Usable(j) && !b.Absent? && b.text == j.text
    && (b.URL? <==> First(j, 0)) && (b.URL? ==> b.url == j.url)
    && (b.Callback? <==> First(j, 1)) && (b.Callback? ==> b.data == j.callbackData)
    && (b.SimpleWebView? <==> First(j, 2)) && (b.SimpleWebView? ==> b.url == j.webApp.value)
    && (b.InputURLAuth? <==> First(j, 3))
    && (b.InputURLAuth? ==>
          && b.url == j.loginURL.value.url
          && b.fwdText == j.loginURL.value.forwardText
          && b.requestWriteAccess == j.loginURL.value.requestWriteAccess)
    && (b.SwitchInline? <==> First(j, 4) || First(j, 5))
    && (b.SwitchInline? ==> b.samePeer == First(j, 5))
    && (b.SwitchInline? ==> b.query == (if First(j, 5) then j.switchInlineCurrent else j.switchInline).value)
    && (b.Copy? <==> First(j, 6)) && (b.Copy? ==> b.copyText == j.copyText.value)
    && (b.Buy? <==> First(j, 7))
    && (b.Game? <==> First(j, 8))
  }

  /** b is the button that an element of `keyboard` asks for. */
  predicate ReplyIs(j: ReplyJson, b: Button) {
    && j.ReplyJson? && !b.Absent? && b.text == j.text
    && (b.RequestPhone? <==> j.requestContact)
    && (b.RequestGeoLocation? <==> !j.requestContact && j.requestLocation)
    && (b.RequestPoll? <==> !j.requestContact && !j.requestLocation && j.requestPoll)
    && (b.SimpleWebView? <==> !j.requestContact && !j.requestLocation && !j.requestPoll && j.webApp.Some?)
    && (b.SimpleWebView? ==> b.url == j.webApp.value)
    && (b.Plain? <==> !j.requestContact && !j.requestLocation && !j.requestPoll && j.webApp.None?)
  }

  /** j shows b, member by member. */
  predicate InlineShows(c: Coercion, b: Button, j: InlineJson) {
    && j.InlineJson?
    && j.text == (if b.Absent? then "" else c(b.text))
    && j.url == (if b.URL? then c(b.url) else "")
    && j.callbackData == (if b.Callback? then c(b.data) else "")
    && j.webApp == (if b.SimpleWebView? || b.WebView? then Some(c(b.url)) else None)
    && (j.loginURL.Some? <==> b.URLAuth?)
    && (b.URLAuth? ==> j.loginURL.value.url == c(b.url) && j.loginURL.value.forwardText == "")
    && (b.URLAuth? ==> !j.loginURL.value.requestWriteAccess)
    && j.switchInline == (if b.SwitchInline? && !b.samePeer then Some(c(b.query)) else None)
    && j.switchInlineCurrent == (if b.SwitchInline? && b.samePeer then Some(c(b.query)) else None)
    && j.copyText == (if b.Copy? then Some(c(b.copyText)) else None)
    && j.pay == b.Buy?
    && j.callbackGame == (if b.Game? then "{}" else "")
  }

  predicate ReplyShows(c: Coercion, b: Button, j: ReplyJson) {
    && j.ReplyJson?
    && j.text == (if b.Absent? then "" else c(b.text))
    && j.requestContact == b.RequestPhone?
    && j.requestLocation == b.RequestGeoLocation?
    && j.requestPoll == b.RequestPoll?
    && j.webApp == (if b.SimpleWebView? then Some(c(b.url)) else None)
  }

  /** x asks for nothing. */
  ghost predicate Silent<X, Y(!new)>(x: X, says: (X, Y) -> bool) { forall y :: !says(x, y) }

  /** `at` are the places of the elements that ask for something, and `to` is what they ask for. */
  ghost predicate Picks<X, Y(!new)>(from: seq<X>, at: seq<int>, to: seq<Y>, says: (X, Y) -> bool) {
    && |at| == |to|
    && (forall i :: 0 <= i < |at| ==> 0 <= at[i] < |from| && says(from[at[i]], to[i]))
    && (forall i, k :: 0 <= i < k < |at| ==> at[i] < at[k])
    && (forall k :: 0 <= k < |from| && k !in at ==> Silent(from[k], says))
  }

  /** `to` holds what the elements of `from` ask for, in order. */
  ghost predicate Reads<X, Y(!new)>(from: seq<X>, to: seq<Y>, says: (X, Y) -> bool) {
    exists at :: Picks(from, at, to, says)
  }

  /** A row asks for the row of its buttons, unless there are none. */
  ghost function RowReader<J>(says: (J, Button) -> bool): (seq<J>, seq<Button>) -> bool {
    (row, r) => r != [] && Reads(row, r, says)
  }

  ghost predicate ShowsInline(c: Coercion, rows: seq<seq<Button>>, json: seq<seq<InlineJson>>) {
    && |json| == |rows|
    && (forall r :: 0 <= r < |rows| ==> |json[r]| == |rows[r]|)
    && (forall r, k :: 0 <= r < |rows| && 0 <= k < |rows[r]| ==> InlineShows(c, rows[r][k], json[r][k]))
  }

  ghost predicate ShowsReply(c: Coercion, rows: seq<seq<Button>>, json: seq<seq<ReplyJson>>) {
    && |json| == |rows|
    && (forall r :: 0 <= r < |rows| ==> |json[r]| == |rows[r]|)
    && (forall r, k :: 0 <= r < |rows| && 0 <= k < |rows[r]| ==> ReplyShows(c, rows[r][k], json[r][k]))
  }

  // ---- single buttons ----

  /** parseInlineButton */
  function ParseInline(j: InlineJson): Button {
    if j.BadInline? then Absent
    else if j.url != "" then URL(j.text, j.url)
    else if j.callbackData != "" then Callback(j.text, j.callbackData)
    else if j.webApp.Some? then SimpleWebView(j.text, j.webApp.value)
    else if j.loginURL.Some? then
      InputURLAuth(j.text, j.loginURL.value.url, j.loginURL.value.forwardText, j.loginURL.value.requestWriteAccess)
    else if j.switchInline.Some? then SwitchInline(j.text, j.switchInline.value, false)
    else if j.switchInlineCurrent.Some? then SwitchInline(j.text, j.switchInlineCurrent.value, true)
    else if j.copyText.Some? then Copy(j.text, j.copyText.value)
    else if j.pay then Buy(j.text)
    else if j.callbackGame != "" then Game(j.text)
    else Absent
  }

  /** parseReplyButton */
  function ParseReply(j: ReplyJson): Button {
    if j.BadReply? then Absent
    else if j.requestContact then RequestPhone(j.text)
    else if j.requestLocation then RequestGeoLocation(j.text)
    else if j.requestPoll then RequestPoll(j.text)
    else if j.webApp.Some? then SimpleWebView(j.text, j.webApp.value)
    else Plain(j.text)
  }

  function JustText(text: string): InlineJson { InlineJson(text, "", "", None, None, None, None, None, false, "") }

  /** inlineButtonToBotAPI, as it is read back. A login_url carries only its url over: the key that
      the forward text is written under is not the one it is read from. */
  function RenderInline(c: Coercion, b: Button): InlineJson {
    if b.Absent? then JustText("")
    else
      var j := JustText(c(b.text));
      if b.URL? then j.(url := c(b.url))
      else if b.Callback? then j.(callbackData := c(b.data))
      else if b.SimpleWebView? || b.WebView? then j.(webApp := Some(c(b.url)))
      else if b.SwitchInline? then
        (if b.samePeer then j.(switchInlineCurrent := Some(c(b.query))) else j.(switchInline := Some(c(b.query))))
      else if b.Buy? then j.(pay := true)
      else if b.Game? then j.(callbackGame := "{}")
      else if b.Copy? then j.(copyText := Some(c(b.copyText)))
      else if b.URLAuth? then j.(loginURL := Some(Login(c(b.url), "", false)))
      else j
  }

  /** replyButtonToBotAPI, as it is read back. */
  function RenderReply(c: Coercion, b: Button): ReplyJson {
    if b.Absent? then ReplyJson("", false, false, false, None)
    else
      ReplyJson(c(b.text), b.RequestPhone?, b.RequestGeoLocation?, b.RequestPoll?,
                if b.SimpleWebView? then Some(c(b.url)) else None)
  }

  function InlineRenderer(c: Coercion): Button -> InlineJson { b => RenderInline(c, b) }

  function ReplyRenderer(c: Coercion): Button -> ReplyJson { b => RenderReply(c, b) }

  // ---- rows ----

  /** The parsed buttons of a row, unknown ones left out. */
  function KeptRow<J>(row: seq<J>, parse: J -> Button): (r: seq<Button>)
    ensures |r| <= |row|
  {
    if row == [] then []
    else
      var n := |row| - 1;
      var b := parse(row[n]);
      KeptRow(row[..n], parse) + (if b.Absent? then [] else [b])
  }

  /** The parsed rows, empty ones left out. */
  function KeptRows<J>(rows: seq<seq<J>>, parse: J -> Button): (r: seq<seq<Button>>)
    ensures |r| <= |rows|
  {
    if rows == [] then []
    else
      var n := |rows| - 1;
      var row := KeptRow(rows[n], parse);
      KeptRows(rows[..n], parse) + (if row == [] then [] else [row])
  }

  function RenderedRow<J>(row: seq<Button>, render: Button -> J): (r: seq<J>)
    ensures |r| == |row|
  {
    if row == [] then []
    else RenderedRow(row[..|row| - 1], render) + [render(row[|row| - 1])]
  }

  function RenderedRows<J>(rows: seq<seq<Button>>, render: Button -> J): (r: seq<seq<J>>)
    ensures |r| == |rows|
  {
    if rows == [] then []
    else RenderedRows(rows[..|rows| - 1], render) + [RenderedRow(rows[|rows| - 1], render)]
  }

  /** What parseReplyMarkup makes of an object: the first kind of markup that applies. */
  function Parsed(j: MarkupJson): Markup {
    if j.BadMarkup? then Nothing
    else if j.inlineKeyboard != [] then Inline(KeptRows(j.inlineKeyboard, ParseInline))
    else if j.keyboard != [] then
      Keyboard(KeptRows(j.keyboard, ParseReply), j.resize, j.oneTime, j.selective, j.placeholder)
    else if j.removeKeyboard then Hide(j.selective)
    else if j.forceReply then ForceReply(j.selective, j.placeholder)
    else Nothing
  }

  const EMPTY: MarkupJson := MarkupJson([], [], false, false, false, false, false, "")

  /** What ReplyMarkupToBotAPI makes of a markup, as it is read back; nothing becomes no JSON at all. */
  function Rendered(c: Coercion, m: Markup): MarkupJson {
    if m.Inline? then EMPTY.(inlineKeyboard := RenderedRows(m.rows, InlineRenderer(c)))
    else if m.Keyboard? then
      EMPTY.(keyboard := RenderedRows(m.rows, ReplyRenderer(c)), resize := m.resize, oneTime := m.singleUse,
             selective := m.selective, placeholder := c(m.placeholder))
    else if m.Hide? then EMPTY.(removeKeyboard := true, selective := m.selective)
    else if m.ForceReply? then EMPTY.(forceReply := true, selective := m.selective, placeholder := c(m.placeholder))
    else BadMarkup
  }

  lemma FirstIs(j: InlineJson, g: seq<bool>)
    requires j.InlineJson? && g == Given(j)
    ensures First(j, 0) <==> g[0]
    ensures First(j, 1) <==> !g[0] && g[1]
    ensures First(j, 2) <==> !g[0] && !g[1] && g[2]
    ensures First(j, 3) <==> !g[0] && !g[1] && !g[2] && g[3]
    ensures First(j, 4) <==> !g[0] && !g[1] && !g[2] && !g[3] && g[4]
    ensures First(j, 5) <==> !g[0] && !g[1] && !g[2] && !g[3] && !g[4] && g[5]
    ensures First(j, 6) <==> !g[0] && !g[1] && !g[2] && !g[3] && !g[4] && !g[5] && g[6]
    ensures First(j, 7) <==> !g[0] && !g[1] && !g[2] && !g[3] && !g[4] && !g[5] && !g[6] && g[7]
    ensures First(j, 8) <==> !g[0] && !g[1] && !g[2] && !g[3] && !g[4] && !g[5] && !g[6] && !g[7] && g[8]
  {
  }

  lemma ParsedInlineIs(j: InlineJson)
    ensures if Usable(j) then InlineIs(j, ParseInline(j)) else ParseInline(j).Absent?
  {
    if j.InlineJson? {
      FirstIs(j, Given(j));
    }
  }

  lemma OneInline(j: InlineJson, b: Button, b': Button)
    requires InlineIs(j, b) && InlineIs(j, b')
    ensures b == b'
  {
    FirstIs(j, Given(j));
  }

  /** What the parser makes of an object is the one button that it asks for. */
  lemma ParseInlineIs(j: InlineJson, b: Button)
    ensures InlineIs(j, b) <==> ParseInline(j) == b && !b.Absent?
  {
    ParsedInlineIs(j);
    if InlineIs(j, b) {
      OneInline(j, b, ParseInline(j));
    }
  }

  lemma ParseReplyIs(j: ReplyJson, b: Button)
    ensures ReplyIs(j, b) <==> ParseReply(j) == b && !b.Absent?
  {
  }

  /** The parser makes of each object the button that it asks for. */
  ghost predicate Agrees<J(!new)>(parse: J -> Button, says: (J, Button) -> bool) {
    forall j, b :: says(j, b) <==> parse(j) == b && !b.Absent?
  }

  lemma SkipLast<X, Y(!new)>(init: seq<X>, last: X, at: seq<int>, to: seq<Y>, says: (X, Y) -> bool)
    requires Picks(init, at, to, says) && Silent(last, says)
    ensures Picks(init + [last], at, to + [], says)
  {
    var from := init + [last];
    assert to + [] == to;
    forall i | 0 <= i < |at| ensures 0 <= at[i] < |from| && says(from[at[i]], to[i]) {
      assert from[at[i]] == init[at[i]];
    }
    forall k | 0 <= k < |from| && k !in at ensures Silent(from[k], says) {
      assert k < |init| ==> from[k] == init[k];
    }
  }

  lemma PickLast<X, Y(!new)>(init: seq<X>, last: X, at: seq<int>, to: seq<Y>, y: Y, says: (X, Y) -> bool)
      returns (at': seq<int>)
    requires Picks(init, at, to, says) && says(last, y)
    ensures Picks(init + [last], at', to + [y], says)
  {
    at' := at + [|init|];
    var from, to' := init + [last], to + [y];
    forall i | 0 <= i < |at'| ensures 0 <= at'[i] < |from| && says(from[at'[i]], to'[i]) {
      if i < |at| {
        assert from[at[i]] == init[at[i]] && at'[i] == at[i] && to'[i] == to[i];
      } else {
        assert from[at'[i]] == last && to'[i] == y;
      }
    }
    forall k | 0 <= k < |from| && k !in at' ensures Silent(from[k], says) {
      assert at'[|at|] == |init| && forall i :: 0 <= i < |at| ==> at[i] == at'[i];
      assert from[k] == init[k];
    }
  }

  lemma {:induction false} KeptRowPicks<J(!new)>(row: seq<J>, parse: J -> Button, says: (J, Button) -> bool)
      returns (at: seq<int>)
    requires Agrees(parse, says)
    ensures Picks(row, at, KeptRow(row, parse), says)
  {
    at := [];
    if row != [] {
      var n := |row| - 1;
      assert row == row[..n] + [row[n]];
      at := KeptRowPicks(row[..n], parse, says);
      if parse(row[n]).Absent? {
        SkipLast(row[..n], row[n], at, KeptRow(row[..n], parse), says);
      } else {
        at := PickLast(row[..n], row[n], at, KeptRow(row[..n], parse), parse(row[n]), says);
      }
    }
  }

  lemma NothingRead<X, Y(!new)>(from: seq<X>, at: seq<int>, to: seq<Y>, says: (X, Y) -> bool)
    requires Picks(from, at, to, says)
    ensures to == [] <==> forall k :: 0 <= k < |from| ==> Silent(from[k], says)
  {
    if to != [] {
      assert !Silent(from[at[0]], says);
    }
  }

  /** A row asks for its kept buttons, if there are any. */
  lemma KeptRowRead<J(!new)>(row: seq<J>, parse: J -> Button, says: (J, Button) -> bool, kept: seq<Button>)
    requires Agrees(parse, says) && kept == KeptRow(row, parse)
    ensures if kept == [] then Silent(row, RowReader(says)) else RowReader(says)(row, kept)
  {
    var at := KeptRowPicks(row, parse, says);
    if kept == [] {
      forall r: seq<Button>, at' | Picks(row, at', r, says) ensures r == [] {
        NothingRead(row, at', r, says);
      }
    }
  }

  lemma {:induction false} KeptRowsPick<J(!new)>(rows: seq<seq<J>>, parse: J -> Button, says: (J, Button) -> bool)
      returns (at: seq<int>)
    requires Agrees(parse, says)
    ensures Picks(rows, at, KeptRows(rows, parse), RowReader(says))
  {
    at := [];
    if rows != [] {
      var n := |rows| - 1;
      var init, kept := rows[..n], KeptRow(rows[n], parse);
      assert rows == init + [rows[n]];
      at := KeptRowsPick(init, parse, says);
      KeptRowRead(rows[n], parse, says, kept);
      if kept == [] {
        SkipLast(init, rows[n], at, KeptRows(init, parse), RowReader(says));
      } else {
        at := PickLast(init, rows[n], at, KeptRows(init, parse), kept, RowReader(says));
      }
    }
  }

  lemma InlineRowsRead(rows: seq<seq<InlineJson>>)
    ensures Reads(rows, KeptRows(rows, ParseInline), RowReader(InlineIs))
  {
    forall j, b ensures InlineIs(j, b) <==> ParseInline(j) == b && !b.Absent? {
      ParseInlineIs(j, b);
    }
    var _ := KeptRowsPick(rows, ParseInline, InlineIs);
  }

  lemma ReplyRowsRead(rows: seq<seq<ReplyJson>>)
    ensures Reads(rows, KeptRows(rows, ParseReply), RowReader(ReplyIs))
  {
    forall j, b ensures ReplyIs(j, b) <==> ParseReply(j) == b && !b.Absent? {
      ParseReplyIs(j, b);
    }
    var _ := KeptRowsPick(rows, ParseReply, ReplyIs);
  }

  /** The nested loops of parseReplyMarkup over the rows of either keyboard. */
  method ParseRows<J>(keyboard: seq<seq<J>>, parse: J -> Button) returns (rows: seq<seq<Button>>)
    ensures rows == KeptRows(keyboard, parse)
  {
    rows := [];
    for i := 0 to |keyboard|
      invariant rows == KeptRows(keyboard[..i], parse)
    {
      var row := keyboard[i];
      var buttons: seq<Button> := [];
      for k := 0 to |row|
        invariant buttons == KeptRow(row[..k], parse)
      {
        var btn := parse(row[k]);
        assert row[..k + 1][..k] == row[..k];
        if btn != Absent {
          buttons := buttons + [btn];
        }
      }
      assert row[..|row|] == row;
      assert keyboard[..i + 1][..i] == keyboard[..i];
      if |buttons| > 0 {
        rows := rows + [buttons];
      }
    }
    assert keyboard[..|keyboard|] == keyboard;
  }

  /** parseReplyMarkup */
  method ParseReplyMarkup(j: MarkupJson) returns (m: Markup)
    ensures m == Parsed(j)
    ensures m.Inline? <==> j.MarkupJson? && j.inlineKeyboard != []
    ensures m.Keyboard? <==> j.MarkupJson? && j.inlineKeyboard == [] && j.keyboard != []
    ensures m.Inline? ==> Reads(j.inlineKeyboard, m.rows, RowReader(InlineIs))
    ensures m.Keyboard? ==> Reads(j.keyboard, m.rows, RowReader(ReplyIs))
    ensures (m.Keyboard? ==>
             && m.resize == j.resize && m.singleUse == j.oneTime
             && m.selective == j.selective && m.placeholder == j.placeholder)
    ensures j.MarkupJson? && j.inlineKeyboard == [] && j.keyboard == [] ==>
              m == if j.removeKeyboard then Hide(j.selective)
                   else if j.forceReply then ForceReply(j.selective, j.placeholder)
                   else Nothing
  {
    if j.BadMarkup? {
      return Nothing;
    }
    if |j.inlineKeyboard| > 0 {
      var rows := ParseRows(j.inlineKeyboard, ParseInline);
      InlineRowsRead(j.inlineKeyboard);
      return Inline(rows);
    }
    if |j.keyboard| > 0 {
      var rows := ParseRows(j.keyboard, ParseReply);
      ReplyRowsRead(j.keyboard);
      return Keyboard(rows, j.resize, j.oneTime, j.selective, j.placeholder);
    }
    if j.removeKeyboard {
      return Hide(j.selective);
    }
    if j.forceReply {
      return ForceReply(j.selective, j.placeholder);
    }
    return Nothing;
  }

  lemma {:induction false} RenderedRowAt<J>(row: seq<Button>, render: Button -> J, k: nat)
    requires k < |row|
    ensures RenderedRow(row, render)[k] == render(row[k])
  {
    if k < |row| - 1 {
      RenderedRowAt(row[..|row| - 1], render, k);
    }
  }

  lemma {:induction false} RenderedRowsAt<J>(rows: seq<seq<Button>>, render: Button -> J, r: nat)
    requires r < |rows|
    ensures RenderedRows(rows, render)[r] == RenderedRow(rows[r], render)
  {
    if r < |rows| - 1 {
      RenderedRowsAt(rows[..|rows| - 1], render, r);
    }
  }

  lemma InlineRowsShown(c: Coercion, rows: seq<seq<Button>>)
    ensures ShowsInline(c, rows, RenderedRows(rows, InlineRenderer(c)))
  {
    forall r | 0 <= r < |rows|
      ensures RenderedRows(rows, InlineRenderer(c))[r] == RenderedRow(rows[r], InlineRenderer(c))
    {
      RenderedRowsAt(rows, InlineRenderer(c), r);
    }
    forall r, k | 0 <= r < |rows| && 0 <= k < |rows[r]|
      ensures InlineShows(c, rows[r][k], RenderedRow(rows[r], InlineRenderer(c))[k])
    {
      RenderedRowAt(rows[r], InlineRenderer(c), k);
      RenderInlineShows(c, rows[r][k]);
    }
  }

  lemma ReplyRowsShown(c: Coercion, rows: seq<seq<Button>>)
    ensures ShowsReply(c, rows, RenderedRows(rows, ReplyRenderer(c)))
  {
    forall r | 0 <= r < |rows|
      ensures RenderedRows(rows, ReplyRenderer(c))[r] == RenderedRow(rows[r], ReplyRenderer(c))
    {
      RenderedRowsAt(rows, ReplyRenderer(c), r);
    }
    forall r, k | 0 <= r < |rows| && 0 <= k < |rows[r]|
      ensures ReplyShows(c, rows[r][k], RenderedRow(rows[r], ReplyRenderer(c))[k])
    {
      RenderedRowAt(rows[r], ReplyRenderer(c), k);
    }
  }

  lemma RenderInlineShows(c: Coercion, b: Button)
    ensures InlineShows(c, b, RenderInline(c, b))
  {
  }

  /** The nested loops of ReplyMarkupToBotAPI. */
  method RenderRows<J>(markup: seq<seq<Button>>, render: Button -> J) returns (rows: seq<seq<J>>)
    ensures rows == RenderedRows(markup, render)
  {
    rows := [];
    for i := 0 to |markup|
      invariant rows == RenderedRows(markup[..i], render)
    {
      var row := markup[i];
      var buttons: seq<J> := [];
      for k := 0 to |row|
        invariant buttons == RenderedRow(row[..k], render)
      {
        assert row[..k + 1][..k] == row[..k];
        buttons := buttons + [render(row[k])];
      }
      assert row[..|row|] == row;
      assert markup[..i + 1][..i] == markup[..i];
      rows := rows + [buttons];
    }
    assert markup[..|markup|] == markup;
  }

  /** ReplyMarkupToBotAPI */
  method ReplyMarkupToBotAPI(c: Coercion, m: Markup) returns (j: MarkupJson)
    ensures j == Rendered(c, m)
    ensures m.Nothing? <==> j.BadMarkup?
    ensures (m.Inline? ==>
             && ShowsInline(c, m.rows, j.inlineKeyboard)
             && j == MarkupJson(j.inlineKeyboard, [], false, false, false, false, false, ""))
    ensures (m.Keyboard? ==>
             && ShowsReply(c, m.rows, j.keyboard)
             && j.inlineKeyboard == [] && !j.removeKeyboard && !j.forceReply
             && j.selective == m.selective && j.resize == m.resize && j.oneTime == m.singleUse
             && j.placeholder == c(m.placeholder))
    ensures m.Hide? ==> j == MarkupJson([], [], true, false, m.selective, false, false, "")
    ensures m.ForceReply? ==> j == MarkupJson([], [], false, true, m.selective, false, false, c(m.placeholder))
  {
    if m.Inline? {
      var rows := RenderRows(m.rows, InlineRenderer(c));
      InlineRowsShown(c, m.rows);
      return EMPTY.(inlineKeyboard := rows);
    }
    if m.Keyboard? {
      var rows := RenderRows(m.rows, ReplyRenderer(c));
      ReplyRowsShown(c, m.rows);
      return EMPTY.(keyboard := rows, resize := m.resize, oneTime := m.singleUse, selective := m.selective,
                    placeholder := c(m.placeholder));
    }
    if m.Hide? {
      return EMPTY.(removeKeyboard := true, selective := m.selective);
    }
    if m.ForceReply? {
      return EMPTY.(forceReply := true, selective := m.selective, placeholder := c(m.placeholder));
    }
    return BadMarkup;
  }

  // ---- which markups survive rendering and parsing ----

  /** A kind that is parsed from its own rendering, with a text to show and data that are valid. */
  predicate StableInline(c: Coercion, b: Button) {
    && !b.Absent? && Survives(c, b.text)
    && ((b.URL? && b.url != "" && Survives(c, b.url))
        || (b.Callback? && b.data != "" && Survives(c, b.data))
        || (b.SimpleWebView? && Survives(c, b.url))
        || (b.SwitchInline? && Survives(c, b.query))
        || (b.Copy? && Survives(c, b.copyText))
        || b.Buy? || b.Game?)
  }

  predicate StableReply(c: Coercion, b: Button) {
    && !b.Absent? && Survives(c, b.text)
    && (b.Plain? || b.RequestPhone? || b.RequestGeoLocation? || b.RequestPoll?
        || (b.SimpleWebView? && Survives(c, b.url)))
  }

  lemma InlineButtonBack(c: Coercion, b: Button)
    ensures !b.Absent? && ParseInline(RenderInline(c, b)) == b <==> StableInline(c, b)
  {
  }

  lemma ReplyButtonBack(c: Coercion, b: Button)
    ensures !b.Absent? && ParseReply(RenderReply(c, b)) == b <==> StableReply(c, b)
  {
  }

  /** b is read back from its rendering. */
  predicate Back<J>(b: Button, parse: J -> Button, render: Button -> J) {
    !b.Absent? && parse(render(b)) == b
  }

  ghost predicate RowStable<J>(row: seq<Button>, parse: J -> Button, render: Button -> J) {
    forall k :: 0 <= k < |row| ==> Back(row[k], parse, render)
  }

  ghost predicate RowsStable<J>(rows: seq<seq<Button>>, parse: J -> Button, render: Button -> J) {
    forall r :: 0 <= r < |rows| ==> rows[r] != [] && RowStable(rows[r], parse, render)
  }

  lemma SnocEqual<T>(init: seq<T>, last: T, init': seq<T>, tail: seq<T>)
    requires |init'| <= |init| && |tail| <= 1
    ensures init' + tail == init + [last] <==> init' == init && tail == [last]
  {
    var a, b := init' + tail, init + [last];
    if a == b {
      assert |tail| == 1 && a[|init|] == last;
      assert init' == a[..|init|] && init == b[..|init|];
    }
  }

  lemma {:induction false} RowBack<J>(row: seq<Button>, parse: J -> Button, render: Button -> J)
    ensures KeptRow(RenderedRow(row, render), parse) == row <==> RowStable(row, parse, render)
  {
    if row != [] {
      var n := |row| - 1;
      var init, last := row[..n], row[n];
      var j, b := RenderedRow(row, render), parse(render(last));
      assert j[..n] == RenderedRow(init, render) && j[n] == render(last);
      RowBack(init, parse, render);
      var kept := KeptRow(RenderedRow(init, render), parse);
      if b.Absent? {
        assert KeptRow(j, parse) == kept + [];
        SnocEqual(init, last, kept, []);
      } else {
        assert KeptRow(j, parse) == kept + [b];
        SnocEqual(init, last, kept, [b]);
      }
      RowStableSnoc(row, init, last, parse, render);
    }
  }

  lemma RowStableSnoc<J>(row: seq<Button>, init: seq<Button>, last: Button, parse: J -> Button, render: Button -> J)
    requires row == init + [last]
    ensures RowStable(row, parse, render) <==> RowStable(init, parse, render) && Back(last, parse, render)
  {
    assert row[|init|] == last && forall k :: 0 <= k < |init| ==> row[k] == init[k];
  }

  lemma RowsStableSnoc<J>(rows: seq<seq<Button>>, init: seq<seq<Button>>, last: seq<Button>,
                          parse: J -> Button, render: Button -> J)
    requires rows == init + [last]
    ensures (RowsStable(rows, parse, render) <==>
             RowsStable(init, parse, render) && last != [] && RowStable(last, parse, render))
  {
    assert rows[|init|] == last && forall r :: 0 <= r < |init| ==> rows[r] == init[r];
  }

  lemma {:induction false} RowsBack<J>(rows: seq<seq<Button>>, parse: J -> Button, render: Button -> J)
    ensures KeptRows(RenderedRows(rows, render), parse) == rows <==> RowsStable(rows, parse, render)
  {
    if rows != [] {
      var n := |rows| - 1;
      var init, last := rows[..n], rows[n];
      var j, row := RenderedRows(rows, render), KeptRow(RenderedRow(last, render), parse);
      assert j[..n] == RenderedRows(init, render) && j[n] == RenderedRow(last, render);
      RowsBack(init, parse, render);
      RowBack(last, parse, render);
      var kept, tail := KeptRows(RenderedRows(init, render), parse), if row == [] then [] else [row];
      assert KeptRows(j, parse) == kept + tail;
      SnocEqual(init, last, kept, tail);
      RowsStableSnoc(rows, init, last, parse, render);
    }
  }

  ghost predicate Occurs<T>(x: T, rows: seq<seq<T>>) {
    exists r, k :: 0 <= r < |rows| && 0 <= k < |rows[r]| && rows[r][k] == x
  }

  ghost predicate NoEmptyRow<T>(rows: seq<seq<T>>) { forall r :: 0 <= r < |rows| ==> rows[r] != [] }

  /** A markup that the translation keeps whole: some row, no empty row, stable buttons only. */
  ghost predicate Canonical(c: Coercion, m: Markup) {
    if m.Inline? then
      m.rows != [] && NoEmptyRow(m.rows) && forall b :: Occurs(b, m.rows) ==> StableInline(c, b)
    else if m.Keyboard? then
      && m.rows != [] && NoEmptyRow(m.rows) && Survives(c, m.placeholder)
      && forall b :: Occurs(b, m.rows) ==> StableReply(c, b)
    else m.ForceReply? ==> Survives(c, m.placeholder)
  }

  lemma RowsStableIs<J>(rows: seq<seq<Button>>, parse: J -> Button, render: Button -> J)
    ensures (RowsStable(rows, parse, render) <==>
             NoEmptyRow(rows) && forall b :: Occurs(b, rows) ==> Back(b, parse, render))
  {
    forall r, k | 0 <= r < |rows| && 0 <= k < |rows[r]| ensures Occurs(rows[r][k], rows) {
    }
  }

  /** A markup is read back from its rendering exactly when it is canonical. */
  lemma BackExactly(c: Coercion, m: Markup)
    ensures Parsed(Rendered(c, m)) == m <==> Canonical(c, m)
  {
    if m.Inline? {
      RowsBack(m.rows, ParseInline, InlineRenderer(c));
      RowsStableIs(m.rows, ParseInline, InlineRenderer(c));
      forall b: Button ensures Back(b, ParseInline, InlineRenderer(c)) <==> StableInline(c, b) {
        InlineButtonBack(c, b);
      }
    } else if m.Keyboard? {
      RowsBack(m.rows, ParseReply, ReplyRenderer(c));
      RowsStableIs(m.rows, ParseReply, ReplyRenderer(c));
      forall b: Button ensures Back(b, ParseReply, ReplyRenderer(c)) <==> StableReply(c, b) {
        ReplyButtonBack(c, b);
      }
    }
  }

  // ---- which objects parse to one ----

  ghost predicate ParsesTo<J>(b: Button, rows: seq<seq<J>>, parse: J -> Button) {
    exists r, k :: 0 <= r < |rows| && 0 <= k < |rows[r]| && parse(rows[r][k]) == b
  }

  lemma {:induction false} KeptInRow<J>(row: seq<J>, parse: J -> Button, b: Button)
    ensures b in KeptRow(row, parse) <==> !b.Absent? && exists k :: 0 <= k < |row| && parse(row[k]) == b
  {
    if row != [] {
      var n := |row| - 1;
      var init, last := row[..n], parse(row[n]);
      KeptInRow(init, parse, b);
      assert b in KeptRow(row, parse) <==> b in KeptRow(init, parse) || (!last.Absent? && b == last);
      assert forall k :: 0 <= k < n ==> init[k] == row[k];
    }
  }

  ghost predicate KeptFrom<J>(row: seq<Button>, rows: seq<seq<J>>, parse: J -> Button) {
    exists r :: 0 <= r < |rows| && KeptRow(rows[r], parse) == row
  }

  lemma KeptFromSnoc<J>(row: seq<Button>, init: seq<seq<J>>, last: seq<J>, parse: J -> Button)
    ensures KeptFrom(row, init + [last], parse) <==> KeptFrom(row, init, parse) || KeptRow(last, parse) == row
  {
    var rows := init + [last];
    assert rows[|init|] == last && forall r :: 0 <= r < |init| ==> rows[r] == init[r];
  }

  lemma {:induction false} KeptInRows<J>(rows: seq<seq<J>>, parse: J -> Button, row: seq<Button>)
    ensures row in KeptRows(rows, parse) <==> row != [] && KeptFrom(row, rows, parse)
  {
    if rows != [] {
      var n := |rows| - 1;
      var init, last := rows[..n], KeptRow(rows[n], parse);
      assert rows == init + [rows[n]];
      KeptInRows(init, parse, row);
      KeptFromSnoc(row, init, rows[n], parse);
      assert KeptRows(rows, parse) == KeptRows(init, parse) + (if last == [] then [] else [last]);
    }
  }

  /** Filtering drops the unknown buttons and the rows left empty, and nothing else. */
  lemma KeptExactly<J>(rows: seq<seq<J>>, parse: J -> Button, b: Button)
    ensures Occurs(b, KeptRows(rows, parse)) <==> !b.Absent? && ParsesTo(b, rows, parse)
    ensures NoEmptyRow(KeptRows(rows, parse))
  {
    var kept := KeptRows(rows, parse);
    if Occurs(b, kept) {
      var i, k :| 0 <= i < |kept| && 0 <= k < |kept[i]| && kept[i][k] == b;
      KeptInRows(rows, parse, kept[i]);
      var r :| 0 <= r < |rows| && KeptRow(rows[r], parse) == kept[i];
      KeptInRow(rows[r], parse, b);
    }
    if !b.Absent? && ParsesTo(b, rows, parse) {
      var r, k :| 0 <= r < |rows| && 0 <= k < |rows[r]| && parse(rows[r][k]) == b;
      KeptInRow(rows[r], parse, b);
      KeptInRows(rows, parse, KeptRow(rows[r], parse));
    }
    forall i | 0 <= i < |kept| ensures kept[i] != [] {
      KeptInRows(rows, parse, kept[i]);
    }
  }

  /** login_url decides the kind of the button. */
  predicate LoginWins(j: InlineJson) {
    j.InlineJson? && j.url == "" && j.callbackData == "" && j.webApp.None? && j.loginURL.Some?
  }

  /** All strings of a decoded button came out of JSON. */
  predicate DecodedInline(c: Coercion, j: InlineJson) {
    j.InlineJson? ==>
      && Survives(c, j.text) && Survives(c, j.url) && Survives(c, j.callbackData)
      && (j.webApp.Some? ==> Survives(c, j.webApp.value))
      && (j.switchInline.Some? ==> Survives(c, j.switchInline.value))
      && (j.switchInlineCurrent.Some? ==> Survives(c, j.switchInlineCurrent.value))
      && (j.copyText.Some? ==> Survives(c, j.copyText.value))
  }

  predicate DecodedReply(c: Coercion, j: ReplyJson) {
    j.ReplyJson? ==> Survives(c, j.text) && (j.webApp.Some? ==> Survives(c, j.webApp.value))
  }

  ghost predicate Decoded(c: Coercion, j: MarkupJson) {
    j.MarkupJson? ==>
      && Survives(c, j.placeholder)
      && (forall b :: Occurs(b, j.inlineKeyboard) ==> DecodedInline(c, b))
      && (forall b :: Occurs(b, j.keyboard) ==> DecodedReply(c, b))
  }

  lemma ParsedInlineStable(c: Coercion, j: InlineJson)
    requires DecodedInline(c, j)
    ensures ParseInline(j).Absent? <==> !Usable(j)
    ensures StableInline(c, ParseInline(j)) <==> Usable(j) && !LoginWins(j)
  {
  }

  lemma ParsedReplyStable(c: Coercion, j: ReplyJson)
    requires DecodedReply(c, j)
    ensures ParseReply(j).Absent? <==> j.BadReply?
    ensures StableReply(c, ParseReply(j)) <==> j.ReplyJson?
  {
  }

  /** Checkable before the call: the keyboard that counts has a usable button, and no login_url
      decides one. */
  ghost predicate ComesBack(j: MarkupJson) {
    if j.BadMarkup? then true
    else if j.inlineKeyboard != [] then
      && (exists b :: Usable(b) && Occurs(b, j.inlineKeyboard))
      && (forall b :: LoginWins(b) ==> !Occurs(b, j.inlineKeyboard))
    else if j.keyboard != [] then exists b: ReplyJson :: b.ReplyJson? && Occurs(b, j.keyboard)
    else true
  }

  lemma KeepsARow<J>(rows: seq<seq<J>>, parse: J -> Button)
    ensures KeptRows(rows, parse) != [] <==> exists b: Button :: !b.Absent? && ParsesTo(b, rows, parse)
  {
    var kept := KeptRows(rows, parse);
    if kept != [] {
      KeptExactly(rows, parse, Absent);
      var b := kept[0][0];
      assert Occurs(b, kept);
      KeptExactly(rows, parse, b);
    }
    if b: Button :| !b.Absent? && ParsesTo(b, rows, parse) {
      KeptExactly(rows, parse, b);
    }
  }

  lemma InlineComesBack(c: Coercion, rows: seq<seq<InlineJson>>)
    requires forall b :: Occurs(b, rows) ==> DecodedInline(c, b)
    ensures Canonical(c, Inline(KeptRows(rows, ParseInline))) <==>
              && (exists b :: Usable(b) && Occurs(b, rows))
              && (forall b :: LoginWins(b) ==> !Occurs(b, rows))
  {
    var kept := KeptRows(rows, ParseInline);
    KeepsARow(rows, ParseInline);
    forall b ensures Occurs(b, kept) <==> !b.Absent? && ParsesTo(b, rows, ParseInline) {
      KeptExactly(rows, ParseInline, b);
    }
    KeptExactly(rows, ParseInline, Absent);
    forall j | Occurs(j, rows)
      ensures ParsesTo(ParseInline(j), rows, ParseInline)
      ensures ParseInline(j).Absent? <==> !Usable(j)
      ensures StableInline(c, ParseInline(j)) <==> Usable(j) && !LoginWins(j)
    {
      ParsedInlineStable(c, j);
    }
    forall b | ParsesTo(b, rows, ParseInline) ensures exists j :: Occurs(j, rows) && ParseInline(j) == b {
      var r, k :| 0 <= r < |rows| && 0 <= k < |rows[r]| && ParseInline(rows[r][k]) == b;
      assert Occurs(rows[r][k], rows);
    }
  }

  lemma ReplyComesBack(c: Coercion, rows: seq<seq<ReplyJson>>, m: Markup)
    requires m.Keyboard? && m.rows == KeptRows(rows, ParseReply) && Survives(c, m.placeholder)
    requires forall b :: Occurs(b, rows) ==> DecodedReply(c, b)
    ensures Canonical(c, m) <==> exists b: ReplyJson :: b.ReplyJson? && Occurs(b, rows)
  {
    KeepsARow(rows, ParseReply);
    forall b ensures Occurs(b, m.rows) <==> !b.Absent? && ParsesTo(b, rows, ParseReply) {
      KeptExactly(rows, ParseReply, b);
    }
    KeptExactly(rows, ParseReply, Absent);
    forall j | Occurs(j, rows)
      ensures ParsesTo(ParseReply(j), rows, ParseReply)
      ensures ParseReply(j).Absent? <==> j.BadReply?
      ensures StableReply(c, ParseReply(j)) <==> j.ReplyJson?
    {
      ParsedReplyStable(c, j);
    }
    forall b | ParsesTo(b, rows, ParseReply) ensures exists j :: Occurs(j, rows) && ParseReply(j) == b {
      var r, k :| 0 <= r < |rows| && 0 <= k < |rows[r]| && ParseReply(rows[r][k]) == b;
      assert Occurs(rows[r][k], rows);
    }
  }

  /** Normal form: for every decoded object, parsing the rendering of its parse gives the parse back
      exactly when the keyboard keeps a row and no button is decided by login_url; remove and
      force-reply markups, and objects that mean nothing, always come back. */
  lemma NormalFormExactly(c: Coercion, j: MarkupJson)
    requires Decoded(c, j)
    ensures Parsed(Rendered(c, Parsed(j))) == Parsed(j) <==> ComesBack(j)
  {
    BackExactly(c, Parsed(j));
    if j.MarkupJson? && j.inlineKeyboard != [] {
      InlineComesBack(c, j.inlineKeyboard);
    } else if j.MarkupJson? && j.keyboard != [] {
      ReplyComesBack(c, j.keyboard, Parsed(j));
    }
  }
}
