/**
 * `CommandServiceImpl`: the replies to `/start`, to an invite deep link and to
 * `/create_family`, with the invite link and the share URL they carry.
 */
module CommandService {
  import opened Wrappers
  import opened Strings
  import opened Telegram
  import opened Tables
  import FamilyRepository

  // ---------------------------------------------------------------------------
  // Invite codes and links
  // ---------------------------------------------------------------------------

  /** The text a deep link delivers in front of its payload. */
  const START_PAYLOAD_PREFIX: string := "/start "

  /** The invite code of a deep-link message: every "/start " removed, then trimmed. */
  function InviteCode(text: string): string {
    Trim(RemoveAll(text, START_PAYLOAD_PREFIX))
  }

  /**
   * A code that is already trimmed and holds no "/start " is recovered from
   * the message the deep link produces.
   */
  lemma InviteCodeRoundTrip(code: string)
    requires IsTrimmed(code) && !Contains(code, START_PAYLOAD_PREFIX)
    ensures InviteCode(START_PAYLOAD_PREFIX + code) == code
  {
    RemoveAllLeading(START_PAYLOAD_PREFIX, code);
  }

  /** The deep link that opens the bot with the code as its start payload. */
  function InviteLink(botName: string, code: string): string {
    "https://t.me/" + botName + "?start=" + code
  }

  // ---------------------------------------------------------------------------
  // `URLEncoder.encode(s, UTF_8)`: application/x-www-form-urlencoded
  // ---------------------------------------------------------------------------

  /** The characters the encoder copies unchanged. */
  predicate Unreserved(c: char) {
    ('a' <= c <= 'z') || ('A' <= c <= 'Z') || ('0' <= c <= '9') || c == '.' || c == '-' || c == '*' || c == '_'
  }

  /** The UTF-8 bytes of one code point. */
  function Utf8(c: char): (bytes: seq<nat>)
    ensures 1 <= |bytes| <= 4
    ensures forall i :: 0 <= i < |bytes| ==> bytes[i] < 256
  {
    var cp := c as int;
    if cp < 0x80 then [cp]
    else if cp < 0x800 then [0xC0 + cp / 0x40, 0x80 + cp % 0x40]
    else if cp < 0x1_0000 then [0xE0 + cp / 0x1000, 0x80 + (cp / 0x40) % 0x40, 0x80 + cp % 0x40]
    else [0xF0 + cp / 0x4_0000, 0x80 + (cp / 0x1000) % 0x40, 0x80 + (cp / 0x40) % 0x40, 0x80 + cp % 0x40]
  }

  function HexDigit(d: nat): (c: char)
    requires d < 16
    ensures Unreserved(c)
  {
    if d < 10 then ('0' as int + d) as char else ('A' as int + d - 10) as char
  }

  /** "%XY" for each byte, upper-case hex. */
  function PercentBytes(bytes: seq<nat>): (s: string)
    requires forall i :: 0 <= i < |bytes| ==> bytes[i] < 256
    ensures |s| == 3 * |bytes|
    ensures forall c :: c in s ==> c == '%' || Unreserved(c)
  {
    if bytes == [] then []
    else ['%', HexDigit(bytes[0] / 16), HexDigit(bytes[0] % 16)] + PercentBytes(bytes[1..])
  }

  function EncodeChar(c: char): string {
    if Unreserved(c) then [c] else if c == ' ' then "+" else PercentBytes(Utf8(c))
  }

  /** The form encoding of a string, character by character. */
  function FormEncode(s: string): string {
    if s == [] then [] else EncodeChar(s[0]) + FormEncode(s[1..])
  }

  /**
   * The encoding uses only unreserved characters, '+' and '%', so it carries
   * no '&', '=', '?' or space of its own.
   */
  lemma {:induction false} FormEncodeSafe(s: string)
    ensures forall c :: c in FormEncode(s) ==> c == '%' || c == '+' || Unreserved(c)
  {
    if s != [] {
      FormEncodeSafe(s[1..]);
    }
  }

  /** A string of unreserved characters, such as a UUID, is its own encoding. */
  lemma {:induction false} FormEncodeUnreserved(s: string)
    requires forall c :: c in s ==> Unreserved(c)
    ensures FormEncode(s) == s
  {
    if s != [] {
      assert s[0] in s;
      assert forall c :: c in s[1..] ==> c in s;
      FormEncodeUnreserved(s[1..]);
      assert s == [s[0]] + s[1..];
    }
  }

  /** The encoding never holds an ampersand. */
  lemma NoAmpersand(s: string)
    ensures forall j :: 0 <= j < |FormEncode(s)| ==> FormEncode(s)[j] != '&'
  {
    FormEncodeSafe(s);
    forall j | 0 <= j < |FormEncode(s)| ensures FormEncode(s)[j] != '&' {
      assert FormEncode(s)[j] in FormEncode(s);
    }
  }

  const SHARE_PREFIX: string := "https://t.me/share/url?url="

  /** The invitation text offered with the link. */
  const SHARE_TEXT: string := "Присоединяйся к моей семье в боте покупок! \U{1F6D2}"

  /** A share URL: the encoded link as `url`, the encoded invitation as `text`. */
  function ShareUrlWith(link: string, invitation: string): string {
    SHARE_PREFIX + FormEncode(link) + "&text=" + FormEncode(invitation)
  }

  /** The share URL the bot sends, with its fixed invitation text. */
  function ShareUrl(link: string): string {
    ShareUrlWith(link, SHARE_TEXT)
  }

  /**
   * A share URL has exactly one '&', the one between the two parameters, so
   * whatever the link or the invitation holds cannot spill into a parameter
   * of its own.
   */
  lemma ShareUrlFields(link: string, invitation: string)
    ensures var u := ShareUrlWith(link, invitation); var k := |SHARE_PREFIX| + |FormEncode(link)|;
      k < |u| && u[k] == '&' && forall i :: 0 <= i < |u| && u[i] == '&' ==> i == k
  {
    var x := FormEncode(link);
    var e := FormEncode(invitation);
    NoAmpersand(link);
    NoAmpersand(invitation);
    PrefixNoAmpersand();
    var a := SHARE_PREFIX + x;
    forall j | 0 <= j < |a| ensures a[j] != '&' {
      if j >= |SHARE_PREFIX| {
        assert a[j] == x[j - |SHARE_PREFIX|];
      }
    }
    OnlyJoiningAmpersand(a, "&text=", e);
    assert ShareUrlWith(link, invitation) == a + "&text=" + e;
  }

  lemma PrefixNoAmpersand()
    ensures forall j :: 0 <= j < |SHARE_PREFIX| ==> SHARE_PREFIX[j] != '&'
  {
  }

  /** Joining two parts free of '&' with a separator that opens with its only '&' leaves that one '&'. */
  lemma OnlyJoiningAmpersand(a: string, sep: string, e: string)
    requires forall j :: 0 <= j < |a| ==> a[j] != '&'
    requires forall j :: 0 <= j < |e| ==> e[j] != '&'
    requires sep == "&text="
    ensures var u := a + sep + e;
      |a| < |u| && u[|a|] == '&' && forall i :: 0 <= i < |u| && u[i] == '&' ==> i == |a|
  {
    var u := a + sep + e;
    forall i | 0 <= i < |u| ensures u[i] != '&' || i == |a| {
      if i < |a| {
        assert u[i] == a[i];
      } else if i >= |a| + |sep| {
        assert u[i] == e[i - |a| - |sep|];
      } else {
        assert u[i] == sep[i - |a|];
      }
    }
  }

  /** The keyboard under the family-created message: one row, one URL button. */
  function ShareKeyboard(shareUrl: string): (rows: Keyboard)
    ensures |rows| == 1 && |rows[0]| == 1 && rows[0][0].UrlButton? && rows[0][0].url == shareUrl
  {
    [[UrlButton("\U{1F46A} Отправить приглашение", shareUrl)]]
  }

  // ---------------------------------------------------------------------------
  // The three commands
  // ---------------------------------------------------------------------------

  /** `start`: the greeting, to the requester only, with no database step. */
  method Start(client: Client, message: Message)
    modifies client
    ensures client.trace == old(client.trace) + [SendMessage(message.chatId, Greeting, None)]
    ensures client.replies == Later(old(client.replies))
  {
    var _ := client.Send(message.chatId, Greeting, None);
  }

  /** The families whose code the message's invite code names. */
  function JoinCandidates(families: seq<Family>, message: Message): seq<int>
    requires message.text.Some?
  {
    FamilyRepository.FamiliesWithCode(families, InviteCode(message.text.value))
  }

  /**
   * `startWithInvite`: the code is cut out of the text and the join runs in
   * one transaction; the requester is then told whether it succeeded. A
   * message without text, or a join that throws, fails before any reply.
   */
  method StartWithInvite(db: Db, client: Client, message: Message) returns (outcome: Outcome)
    requires db.Valid()
    modifies db, client
    ensures db.Valid()
    ensures db.families == old(db.families) && db.shoppingList == old(db.shoppingList)
    ensures message.text.None? ==> outcome == Failed && client.trace == old(client.trace) && db.users == old(db.users)
    ensures message.text.Some? && |JoinCandidates(old(db.families), message)| > 1 ==>
      outcome == Failed && client.trace == old(client.trace) && db.users == old(db.users)
    ensures message.text.Some? && JoinCandidates(old(db.families), message) == [] ==>
      outcome == Done && db.users == old(db.users)
      && client.trace == old(client.trace) + [SendMessage(message.chatId, JoinFailed, None)]
    ensures message.text.Some? && |JoinCandidates(old(db.families), message)| == 1 ==>
      outcome == Done
      && db.users == FamilyRepository.UpsertRows(old(db.users), message.chatId, JoinCandidates(old(db.families), message)[0], message.fromFirstName)
      && client.trace == old(client.trace) + [SendMessage(message.chatId, JoinSucceeded, None)]
  {
    if message.text.None? {
      return Failed;
    }
    var code := InviteCode(message.text.value);
    var joined := FamilyRepository.JoinFamily(db, message.chatId, code, message.fromFirstName);
    if joined.None? {
      return Failed;
    }
    var _ := client.Send(message.chatId, if joined.value then JoinSucceeded else JoinFailed, None);
    outcome := Done;
  }

  /**
   * `createFamily`: a family is created with a fresh code and the requester
   * is sent one message whose keyboard shares the invite link. `code` is the
   * UUID the repository draws and `botName` the configured bot name.
   */
  method CreateFamily(db: Db, client: Client, message: Message, botName: string, code: string)
    requires db.Valid()
    modifies db, client
    ensures db.Valid()
    ensures db.families == old(db.families) + [Family(old(db.nextFamilyId), code)]
    ensures db.users == FamilyRepository.UpsertRows(old(db.users), message.chatId, old(db.nextFamilyId), message.fromFirstName)
    ensures db.shoppingList == old(db.shoppingList)
    ensures client.trace == old(client.trace) +
      [SendMessage(message.chatId, FamilyCreated, Some(ShareKeyboard(ShareUrl(InviteLink(botName, code)))))]
  {
    var r := FamilyRepository.CreateFamilyAndGetCode(db, message.chatId, message.fromFirstName, code);
    var link := InviteLink(botName, r);
    var _ := client.Send(message.chatId, FamilyCreated, Some(ShareKeyboard(ShareUrl(link))));
  }
}
