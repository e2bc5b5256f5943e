/**
 * The Telegram bot (index.js): reading a level number from a `/l<digits>`
 * command or from the data of a "next" button, rendering a row of the levels
 * table as the HTML message the bot sends, choosing which earlier messages to
 * delete, and remembering per chat which messages to delete next time.
 *
 * Telegram calls are not modelled: the model produces the ids a call would
 * delete and the reply it would send, and takes the id of the sent message as
 * an input (None when sending fails and the follow-up never runs).
 */
module Bot {
  import opened Common
  import opened Text
  import opened Numerals
  import opened Stores

  // ---------------------------------------------------------------------------
  // JavaScript numbers and parseInt

  /** A JavaScript number as this program can produce it: an integer, or NaN from a failed parseInt. */
  datatype JsNum = Num(n: int) | NaN

  /** `${x}` of a number. */
  function JsNumText(x: JsNum): string
  {
    match x
    case Num(n) => IntToString(n)
    case NaN => "NaN"
  }

  /** `x + 1`. */
  function Add1(x: JsNum): JsNum
  {
    match x
    case Num(n) => Num(n + 1)
    case NaN => NaN
  }

  /** The white space and line terminators JavaScript's parseInt skips at the start. */
  predicate JsIsSpace(c: char)
  {
    || ('\t' <= c <= '\r')
    || c == ' ' || c == '\U{00A0}' || c == '\U{1680}'
    || ('\U{2000}' <= c <= '\U{200A}')
    || c == '\U{2028}' || c == '\U{2029}' || c == '\U{202F}' || c == '\U{205F}' || c == '\U{3000}' || c == '\U{FEFF}'
  }

  function JsTrimStart(s: string): (r: string)
    ensures |r| <= |s| && r == s[|s| - |r|..]
    ensures r == [] || !JsIsSpace(r[0])
    decreases |s|
  {
    if s != [] && JsIsSpace(s[0]) then JsTrimStart(s[1..]) else s
  }

  predicate IsRadixDigit(c: char, hex: bool)
  {
    IsDigit(c) || (hex && (('a' <= c <= 'f') || ('A' <= c <= 'F')))
  }

  function RadixDigitValue(c: char, hex: bool): nat
    requires IsRadixDigit(c, hex)
  {
    if IsDigit(c) then DigitValue(c)
    else if 'a' <= c <= 'f' then c as int - 'a' as int + 10
    else c as int - 'A' as int + 10
  }

  /** The value of a run of digits in base 16 (hex) or 10, most significant first. */
  function RadixValue(s: string, hex: bool): nat
    requires forall i | 0 <= i < |s| :: IsRadixDigit(s[i], hex)
    decreases |s|
  {
    if s == [] then 0
    else RadixValue(s[..|s| - 1], hex) * (if hex then 16 else 10) + RadixDigitValue(s[|s| - 1], hex)
  }

  /** Length of the leading run of digits. */
  function DigitRun(s: string, hex: bool): (k: nat)
    ensures k <= |s|
    ensures forall i | 0 <= i < k :: IsRadixDigit(s[i], hex)
    ensures k < |s| ==> !IsRadixDigit(s[k], hex)
    decreases |s|
  {
    if s != [] && IsRadixDigit(s[0], hex) then 1 + DigitRun(s[1..], hex) else 0
  }

  /** The value of the leading run of base-16 or base-10 digits; NaN when there is none. */
  function ParseDigitRun(body: string, hex: bool): JsNum
  {
    var k := DigitRun(body, hex);
    if k == 0 then NaN else Num(RadixValue(body[..k], hex))
  }

  /** After the sign: base 16 behind a "0x" or "0X" prefix, base 10 otherwise. */
  function ParseUnsigned(u: string): JsNum
  {
    if |u| >= 2 && u[0] == '0' && (u[1] == 'x' || u[1] == 'X') then ParseDigitRun(u[2..], true)
    else ParseDigitRun(u, false)
  }

  function Negate(x: JsNum): JsNum
  {
    match x
    case Num(n) => Num(-n)
    case NaN => NaN
  }

  /**
   * `parseInt(s)` with no radix: leading white space skipped, an optional sign,
   * base 16 after a "0x" or "0X" prefix and base 10 otherwise, then the longest
   * run of digits; NaN when that run is empty.
   */
  function JsParseInt(s: string): JsNum
  {
    var t := JsTrimStart(s);
    if t != [] && t[0] == '-' then Negate(ParseUnsigned(t[1..]))
    else if t != [] && t[0] == '+' then ParseUnsigned(t[1..])
    else ParseUnsigned(t)
  }

  lemma {:induction false} RadixValueDecimal(s: string)
    requires AllDigits(s)
    ensures forall i | 0 <= i < |s| :: IsRadixDigit(s[i], false)
    ensures RadixValue(s, false) == DigitsValue(s)
    decreases |s|
  {
    AllDigitsAt(s);
    if s != [] {
      RadixValueDecimal(s[..|s| - 1]);
    }
  }

  /** A non-empty string of decimal digits is read whole, as its decimal value (leading zeros included). */
  lemma ParseUnsignedOfDigits(d: string)
    requires d != [] && AllDigits(d)
    ensures IsDigit(d[0])
    ensures ParseUnsigned(d) == Num(DigitsValue(d))
  {
    AllDigitsAt(d);
    if |d| >= 2 {
      assert IsDigit(d[1]);
    }
    RadixValueDecimal(d);
    var k := DigitRun(d, false);
    assert k == |d|;
    assert d[..k] == d;
  }

  lemma JsTrimStartUnpadded(s: string)
    requires s != [] && !JsIsSpace(s[0])
    ensures JsTrimStart(s) == s
  {
  }

  /** parseInt reads a non-empty string of decimal digits as its decimal value. */
  lemma JsParseIntOfDigits(d: string)
    requires d != [] && AllDigits(d)
    ensures JsParseInt(d) == Num(DigitsValue(d))
  {
    ParseUnsignedOfDigits(d);
    JsTrimStartUnpadded(d);
    assert d[0] != '-' && d[0] != '+';
    assert JsParseInt(d) == ParseUnsigned(d);
  }

  /** parseInt reads back the decimal text of every integer. */
  lemma JsParseIntOfIntToString(n: int)
    ensures JsParseInt(IntToString(n)) == Num(n)
  {
    var m := if n < 0 then -n else n;
    var d := NatToString(m);
    NatToStringValue(m);
    if n < 0 {
      var s := IntToString(n);
      assert s == "-" + d;
      JsTrimStartUnpadded(s);
      assert s[1..] == d;
      ParseUnsignedOfDigits(d);
    } else {
      JsParseIntOfDigits(d);
    }
  }

  // ---------------------------------------------------------------------------
  // Reading a level number

  /**
   * The `/^\/l(\d+)$/` handler: text that is "/l" followed by one or more ASCII
   * digits and nothing else yields `parseInt` of those digits; any other text
   * is not a level command.
   */
  function LevelCommand(text: string): Option<JsNum>
  {
    if |text| >= 3 && text[..2] == "/l" && AllDigits(text[2..]) then Some(JsParseInt(text[2..])) else None
  }

  /** A level command is exactly "/l" plus a non-empty digit string, and its level is the digits' decimal value. */
  lemma LevelCommandExactly(text: string)
    ensures LevelCommand(text).Some? <==> exists d :: d != [] && AllDigits(d) && text == "/l" + d
    ensures LevelCommand(text).Some? ==> AllDigits(text[2..]) && LevelCommand(text).value == Num(DigitsValue(text[2..]))
  {
    if LevelCommand(text).Some? {
      JsParseIntOfDigits(text[2..]);
      assert text == "/l" + text[2..];
    }
    if exists d :: d != [] && AllDigits(d) && text == "/l" + d {
      var d :| d != [] && AllDigits(d) && text == "/l" + d;
      assert text[2..] == d;
    }
  }

  /** The command for level n reads back as n. */
  lemma LevelCommandRoundTrip(n: nat)
    ensures LevelCommand("/l" + NatToString(n)) == Some(Num(n))
  {
    var d := NatToString(n);
    assert ("/l" + d)[2..] == d;
    assert ("/l" + d)[..2] == "/l";
    JsParseIntOfDigits(d);
    NatToStringValue(n);
  }

  const NextPrefix := "next:"

  /**
   * The callback handler: data that starts with "next:" yields `parseInt` of
   * the second ':'-separated field; any other data is ignored.
   */
  function CallbackLevel(data: string): Option<JsNum>
  {
    if StartsWith(data, NextPrefix) then
      assert data[4] == data[..5][4];
      Some(JsParseInt(Split(data, ':')[1]))
    else None
  }

  /** The inline button under a level's message. */
  datatype Button = Button(caption: string, callbackData: string)

  const NextLabel := "\U{27A1}\U{FE0F} Следующий"

  /** The "next" button for a level: its data is "next:" followed by the level plus one. */
  function NextButton(level: JsNum): Button
  {
    Button(NextLabel, NextPrefix + JsNumText(Add1(level)))
  }

  /** The field after "next:" is everything after it, when that holds no ':'. */
  lemma CallbackField(t: string)
    requires ':' !in t
    ensures StartsWith(NextPrefix + t, NextPrefix)
    ensures Split(NextPrefix + t, ':')[1] == t
  {
    var data := NextPrefix + t;
    assert data[..5] == NextPrefix;
    assert data == "next" + [':'] + t;
    SplitAtFirst("next", ':', t);
  }

  /** The decimal text of an integer holds no ':'. */
  lemma IntToStringHasNoColon(n: int)
    ensures ':' !in IntToString(n)
  {
    var m := if n < 0 then -n else n;
    AllDigitsAt(NatToString(m));
    assert IntToString(n) == if n < 0 then "-" + NatToString(m) else NatToString(m);
  }

  /** Pressing the "next" button of level n asks for level n + 1. */
  lemma NextButtonRoundTrip(n: int)
    ensures CallbackLevel(NextButton(Num(n)).callbackData) == Some(Num(n + 1))
  {
    var t := IntToString(n + 1);
    IntToStringHasNoColon(n + 1);
    CallbackField(t);
    JsParseIntOfIntToString(n + 1);
  }

  /** Data without the "next:" prefix is ignored. */
  lemma OtherCallbacksIgnored(data: string)
    requires !StartsWith(data, NextPrefix)
    ensures CallbackLevel(data).None?
  {
  }

  // ---------------------------------------------------------------------------
  // Rendering

  const MainBullet := "\U{1F539} "
  const BonusOpen := "\U{25AB}\U{FE0F} <i>"
  const BonusClose := "</i>"
  const BonusHeading := "\n\n\U{1F381} <b>Бонусные слова:</b>\n"

  /** Each field between a prefix and a suffix. */
  function Bullets(fields: seq<string>, before: string, after: string): seq<string>
  {
    seq(|fields|, i requires 0 <= i < |fields| => before + fields[i] + after)
  }

  /** The main-words lines: one "🔹 w" line per comma-separated field of the stored column. */
  function MainSection(mainWords: string): string
  {
    Join(Bullets(Split(mainWords, ','), MainBullet, ""), '\n')
  }

  /** `bonusWords`: one "▫️ <i>w</i>" line per field when the column is non-null and non-empty, otherwise null. */
  function BonusSection(bonusWords: Option<string>): Option<string>
  {
    if bonusWords.Some? && bonusWords.value != "" then
      Some(Join(Bullets(Split(bonusWords.value, ','), BonusOpen, BonusClose), '\n'))
    else None
  }

  function LevelHeader(levelText: string): string
  {
    "\U{1F4D8} <b>Уровень " + levelText + "</b>\n\n\U{1F9E9} <b>Основные слова:</b>\n"
  }

  /** The message for a level's row: header, main words, then the bonus section if it is a non-empty string. */
  function RenderLevel(levelText: string, row: LevelRow): string
  {
    var text := LevelHeader(levelText) + MainSection(row.mainWords);
    var bonus := BonusSection(row.bonusWords);
    if bonus.Some? && bonus.value != "" then text + BonusHeading + bonus.value else text
  }

  function NotFoundText(level: JsNum): string
  {
    "\U{274C} Уровень " + JsNumText(level) + " не найден."
  }

  /** What the bot sends: a text and, for a found level, the "next" button. */
  datatype Reply = Reply(text: string, button: Option<Button>)

  /** `SELECT ... WHERE level = ?`: NaN matches no row. */
  function LookupRow(levels: map<int, LevelRow>, level: JsNum): Option<LevelRow>
  {
    match level
    case Num(n) => if n in levels then Some(levels[n]) else None
    case NaN => None
  }

  /** The reply handleLevel sends for a level. */
  function Respond(level: JsNum, levels: map<int, LevelRow>): Reply
  {
    match LookupRow(levels, level)
    case None => Reply(NotFoundText(level), None)
    case Some(row) => Reply(RenderLevel(JsNumText(level), row), Some(NextButton(level)))
  }

  /**
   * A level without a row gets only the "not found" text and no keyboard; a
   * level with a row gets a button whose data leads to the next level.
   */
  lemma RespondButton(level: JsNum, levels: map<int, LevelRow>)
    ensures Respond(level, levels).button.Some? <==> LookupRow(levels, level).Some?
    ensures LookupRow(levels, level).None? ==> Respond(level, levels).text == NotFoundText(level)
    ensures Respond(level, levels).button.Some? ==>
      level.Num? && CallbackLevel(Respond(level, levels).button.value.callbackData) == Some(Add1(level))
  {
    if LookupRow(levels, level).Some? {
      NextButtonRoundTrip(level.n);
    }
  }

  /** A bonus section appears exactly when the stored bonus column is non-null and non-empty. */
  lemma BonusShownIff(levelText: string, row: LevelRow)
    ensures var shown := row.bonusWords.Some? && row.bonusWords.value != "";
      && (shown ==>
            RenderLevel(levelText, row) ==
            LevelHeader(levelText) + MainSection(row.mainWords) + BonusHeading + BonusSection(row.bonusWords).value)
      && (!shown ==> RenderLevel(levelText, row) == LevelHeader(levelText) + MainSection(row.mainWords))
  {
    var b := BonusSection(row.bonusWords);
    if b.Some? {
      var fields := Split(row.bonusWords.value, ',');
      var lines := Bullets(fields, BonusOpen, BonusClose);
      assert |lines| >= 1 && lines[0] == BonusOpen + fields[0] + BonusClose;
      JoinStartsWithFirst(lines, '\n');
    }
  }

  /** A joined list starts with its first item. */
  lemma JoinStartsWithFirst(ws: seq<string>, sep: char)
    requires |ws| >= 1
    ensures |Join(ws, sep)| >= |ws[0]| && Join(ws, sep)[..|ws[0]|] == ws[0]
  {
  }

  /** An empty main-words column renders as a single bullet with nothing after it. */
  lemma EmptyMainRendersOneBullet()
    ensures MainSection("") == MainBullet
  {
    assert Split("", ',') == [""];
    var lines := Bullets([""], MainBullet, "");
    assert |lines| == 1 && lines[0] == MainBullet + "" + "";
    assert MainBullet + "" + "" == MainBullet;
    assert lines == [MainBullet];
  }

  /** The lines of the bulleted fields, split back at the newlines. */
  lemma BulletLines(fields: seq<string>, before: string, after: string)
    requires |fields| >= 1
    requires '\n' !in before && '\n' !in after
    requires forall f | f in fields :: '\n' !in f
    ensures Split(Join(Bullets(fields, before, after), '\n'), '\n') == Bullets(fields, before, after)
  {
    var lines := Bullets(fields, before, after);
    forall l | l in lines ensures '\n' !in l {
      var i :| 0 <= i < |lines| && lines[i] == l;
      assert fields[i] in fields;
    }
    SplitJoin(lines, '\n');
  }

  /**
   * What the crawler stores the bot shows: for a non-empty list of main words
   * and a list of bonus words, none holding a comma or a newline, the message
   * has one "🔹 w" line per main word in order, and a bonus section exactly when
   * there are bonus words, with one "▫️ <i>w</i>" line per bonus word in order.
   */
  lemma StoredRowRendersWords(main: seq<string>, bonus: seq<string>)
    requires main != []
    requires forall w | w in main :: ',' !in w && '\n' !in w
    requires forall w | w in bonus :: w != [] && ',' !in w && '\n' !in w
    ensures Split(MainSection(StoredRow(main, bonus).mainWords), '\n') == Bullets(main, MainBullet, "")
    ensures BonusSection(StoredRow(main, bonus).bonusWords).Some? <==> bonus != []
    ensures bonus != [] ==>
      Split(BonusSection(StoredRow(main, bonus).bonusWords).value, '\n') == Bullets(bonus, BonusOpen, BonusClose)
  {
    StoredRowRoundTrip(main, bonus);
    assert '\n' !in MainBullet;
    BulletLines(main, MainBullet, "");
    if bonus != [] {
      assert bonus[0] in bonus;
      JoinStartsWithFirst(bonus, ',');
      assert '\n' !in BonusOpen && '\n' !in BonusClose;
      BulletLines(bonus, BonusOpen, BonusClose);
    }
  }

  // ---------------------------------------------------------------------------
  // Chat state

  /** A message_state row: the ids of the user's last command and the bot's last reply (each may be NULL). */
  datatype MsgState = MsgState(userMsgId: Option<int>, botMsgId: Option<int>)

  /** JavaScript truthiness of an id: set and not zero. */
  predicate Truthy(id: Option<int>)
  {
    id.Some? && id.value != 0
  }

  /** The ids handleLevel deletes: the stored user and bot message ids, then the pressed message's id. */
  function DeletionIds(stored: Option<MsgState>, previousBotMsgId: Option<int>): seq<int>
  {
    (if stored.Some? && Truthy(stored.value.userMsgId) then [stored.value.userMsgId.value] else [])
    + (if stored.Some? && Truthy(stored.value.botMsgId) then [stored.value.botMsgId.value] else [])
    + (if Truthy(previousBotMsgId) then [previousBotMsgId.value] else [])
  }

  /** Exactly the ids that are set (and non-zero) are deleted, at most three. */
  lemma DeletionIdsExactly(stored: Option<MsgState>, previousBotMsgId: Option<int>)
    ensures |DeletionIds(stored, previousBotMsgId)| <= 3
    ensures forall x :: x in DeletionIds(stored, previousBotMsgId) <==>
      && x != 0
      && ((stored.Some? && (stored.value.userMsgId == Some(x) || stored.value.botMsgId == Some(x)))
          || previousBotMsgId == Some(x))
  {
  }

  /** The row of a chat, if any. */
  function StoredState(states: map<int, MsgState>, chat: int): Option<MsgState>
  {
    if chat in states then Some(states[chat]) else None
  }

  /** saveState: upsert of the chat's row with the new values in both columns. */
  function Upsert(states: map<int, MsgState>, chat: int, userMsgId: Option<int>, botMsgId: int): map<int, MsgState>
  {
    states[chat := MsgState(userMsgId, Some(botMsgId))]
  }

  /**
   * The table after the send's follow-up ran: nothing when the send failed; on
   * a missing level only when a user message id is given; on a found level
   * always, with the user id or NULL.
   */
  function AfterSend(states: map<int, MsgState>, chat: int, userMsgId: Option<int>, found: bool, sentId: Option<int>): map<int, MsgState>
  {
    if sentId.None? then states
    else if Truthy(userMsgId) then Upsert(states, chat, userMsgId, sentId.value)
    else if found then Upsert(states, chat, None, sentId.value)
    else states
  }

  /** After a save exactly one row exists for the chat, holding both new values; other chats keep theirs. */
  lemma UpsertEffect(states: map<int, MsgState>, chat: int, userMsgId: Option<int>, botMsgId: int)
    ensures Upsert(states, chat, userMsgId, botMsgId).Keys == states.Keys + {chat}
    ensures StoredState(Upsert(states, chat, userMsgId, botMsgId), chat) == Some(MsgState(userMsgId, Some(botMsgId)))
    ensures forall c | c in states && c != chat :: Upsert(states, chat, userMsgId, botMsgId)[c] == states[c]
  {
  }

  /**
   * The state a level request leaves: a found level whose reply was sent
   * always records the reply (and the user's message, or NULL); a missing
   * level records it only when there is a user message; a failed send records nothing.
   */
  lemma AfterSendEffect(states: map<int, MsgState>, chat: int, userMsgId: Option<int>, found: bool, sentId: Option<int>)
    ensures var after := AfterSend(states, chat, userMsgId, found, sentId);
      && (forall c | c != chat :: StoredState(after, c) == StoredState(states, c))
      && (sentId.Some? && (found || Truthy(userMsgId)) ==>
            StoredState(after, chat) == Some(MsgState(if Truthy(userMsgId) then userMsgId else None, sentId)))
      && (sentId.None? || (!found && !Truthy(userMsgId)) ==> after == states)
  {
  }

  /** The bot's chat-state table, next to the levels table the crawler fills. */
  class ChatBot {
    var states: map<int, MsgState>
    const levelDb: LevelStore

    constructor(levelDb: LevelStore)
      ensures states == map[] && this.levelDb == levelDb
    {
      states := map[];
      this.levelDb := levelDb;
    }

    /** saveState. */
    method SaveState(chat: int, userMsgId: Option<int>, botMsgId: int)
      modifies this
      ensures states == Upsert(old(states), chat, userMsgId, botMsgId)
    {
      states := states[chat := MsgState(userMsgId, Some(botMsgId))];
    }

    /** The ids handleLevel deletes: the chat's remembered user and bot messages, then the pressed message, each when set. */
    method Deletions(chat: int, previousBotMsgId: Option<int>) returns (deleted: seq<int>)
      ensures deleted == DeletionIds(StoredState(states, chat), previousBotMsgId)
    {
      deleted := [];
      if chat in states {
        var state := states[chat];
        if Truthy(state.userMsgId) {
          deleted := deleted + [state.userMsgId.value];
        }
        if Truthy(state.botMsgId) {
          deleted := deleted + [state.botMsgId.value];
        }
      }
      if Truthy(previousBotMsgId) {
        deleted := deleted + [previousBotMsgId.value];
      }
    }

    /** The follow-up of the send in handleLevel: remember the sent message as the rule of AfterSend says. */
    method Remember(chat: int, userMsgId: Option<int>, found: bool, sentId: Option<int>)
      modifies this
      ensures states == AfterSend(old(states), chat, userMsgId, found, sentId)
    {
      if sentId.None? {
        return;
      }
      if Truthy(userMsgId) {
        SaveState(chat, userMsgId, sentId.value);
      } else if found {
        SaveState(chat, None, sentId.value);
      }
    }

    /**
     * handleLevel: delete the remembered messages and the pressed one, send the
     * level's reply, and once it is sent remember its id (`sentId`).
     */
    method HandleLevel(chat: int, level: JsNum, userMsgId: Option<int>, previousBotMsgId: Option<int>, sentId: Option<int>)
      returns (deleted: seq<int>, reply: Reply)
      modifies this
      ensures deleted == DeletionIds(StoredState(old(states), chat), previousBotMsgId)
      ensures reply == Respond(level, levelDb.levels)
      ensures states == AfterSend(old(states), chat, userMsgId, LookupRow(levelDb.levels, level).Some?, sentId)
    {
      deleted := Deletions(chat, previousBotMsgId);
      var row := LookupRow(levelDb.levels, level);
      if row.None? {
        reply := Reply(NotFoundText(level), None);
      } else {
        reply := Reply(RenderLevel(JsNumText(level), row.value), Some(NextButton(level)));
      }
      Remember(chat, userMsgId, row.Some?, sentId);
    }

    /** The `/l<digits>` handler: a level command from message `messageId` is handled as that level, anything else is not. */
    method OnText(chat: int, text: string, messageId: int, sentId: Option<int>)
      returns (deleted: seq<int>, reply: Option<Reply>)
      modifies this
      ensures LevelCommand(text).None? ==> deleted == [] && reply.None? && states == old(states)
      ensures LevelCommand(text).Some? ==>
        var level := LevelCommand(text).value;
        && deleted == DeletionIds(StoredState(old(states), chat), None)
        && reply == Some(Respond(level, levelDb.levels))
        && states == AfterSend(old(states), chat, Some(messageId), LookupRow(levelDb.levels, level).Some?, sentId)
    {
      var command := LevelCommand(text);
      if command.None? {
        return [], None;
      }
      var r;
      deleted, r := HandleLevel(chat, command.value, Some(messageId), None, sentId);
      reply := Some(r);
    }

    /** The callback handler: "next:" data pressed on message `messageId` is handled as the level it names, anything else is ignored. */
    method OnCallback(chat: int, messageId: int, data: string, sentId: Option<int>)
      returns (deleted: seq<int>, reply: Option<Reply>)
      modifies this
      ensures CallbackLevel(data).None? ==> deleted == [] && reply.None? && states == old(states)
      ensures CallbackLevel(data).Some? ==>
        var level := CallbackLevel(data).value;
        && deleted == DeletionIds(StoredState(old(states), chat), Some(messageId))
        && reply == Some(Respond(level, levelDb.levels))
        && states == AfterSend(old(states), chat, None, LookupRow(levelDb.levels, level).Some?, sentId)
    {
      var level := CallbackLevel(data);
      if level.None? {
        return [], None;
      }
      var r;
      deleted, r := HandleLevel(chat, level.value, None, Some(messageId), sentId);
      reply := Some(r);
    }
  }
}
