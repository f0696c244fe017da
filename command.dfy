/**
 * `Command`: the bot's text commands and `getCommand`, which returns the first
 * constant, in declaration order, whose text starts the message.
 */
module Command {
  import opened Wrappers
  import PrefixTable

  datatype Command = Start | StartWithInvite | CreateFamily | Unknown {

    /** The command text the constant carries. */
    function Prefix(): string {
      match this
      case Start => "/start"
      case StartWithInvite => "/start "
      case CreateFamily => "/create_family"
      case Unknown => ""
    }

    /** The constant's position in `Command.values()`. */
    function Ordinal(): nat {
      match this
      case Start => 0
      case StartWithInvite => 1
      case CreateFamily => 2
      case Unknown => 3
    }
  }

  /** `Command.values()`, in declaration order. */
  const Values: seq<Command> := [Start, StartWithInvite, CreateFamily, Unknown]

  function Prefixes(values: seq<Command>): (ps: seq<string>)
    ensures |ps| == |values|
    ensures forall i :: 0 <= i < |values| ==> ps[i] == values[i].Prefix()
  {
    seq(|values|, i requires 0 <= i < |values| => values[i].Prefix())
  }

  /**
   * `Command.getCommand`: `null` is `UNKNOWN`; otherwise the first constant in
   * declaration order whose text starts `command`.
   */
  function GetCommand(command: Option<string>): (r: Command)
    ensures command.None? ==> r == Unknown
    ensures command.Some? ==> r.Prefix() <= command.value
    ensures command.Some? ==> forall c: Command :: c.Ordinal() < r.Ordinal() ==> !(c.Prefix() <= command.value)
  {
    match command
    case None => Unknown
    case Some(s) =>
      var k := PrefixTable.FirstMatch(Prefixes(Values), s);
      assert forall c: Command :: Values[c.Ordinal()] == c;
      if k < |Values| then Values[k] else Unknown
  }

  /**
   * What each command text is routed to. Because "/start" is declared before
   * "/start ", every text beginning "/start" is `START`, and `START_WITH_INVITE`
   * is never returned.
   */
  lemma GetCommandCases(s: string)
    ensures GetCommand(Some(s)) == Start <==> "/start" <= s
    ensures GetCommand(Some(s)) == CreateFamily <==> "/create_family" <= s
    ensures GetCommand(Some(s)) == Unknown <==> !("/start" <= s) && !("/create_family" <= s)
    ensures GetCommand(Some(s)) != StartWithInvite
  {
    var r := GetCommand(Some(s));
    assert Start.Ordinal() == 0 && CreateFamily.Ordinal() == 2;
    assert "/start" <= "/start ";
    if "/start " <= s {
      assert s[..6] == "/start";
    }
    if "/create_family" <= s {
      assert s[1] == 'c';
    }
    if "/start" <= s {
      assert s[1] == 's';
    }
  }

  // ---------------------------------------------------------------------------
  // The deep-link invitation "/start <code>" is routed to `START`.
  // ---------------------------------------------------------------------------

  /** As written: the text Telegram delivers for an invitation link is classified `START`. */
  lemma InviteDeepLinkMisrouted(code: string)
    ensures GetCommand(Some("/start " + code)) == Start
  {
    GetCommandCases("/start " + code);
    assert ("/start " + code)[..6] == "/start";
  }

  /** The intended table: `START_WITH_INVITE` declared before `START`. */
  const ReorderedValues: seq<Command> := [StartWithInvite, Start, CreateFamily, Unknown]

  /** A constant's position in `ReorderedValues`. */
  function ReorderedIndex(c: Command): nat {
    match c
    case StartWithInvite => 0
    case Start => 1
    case CreateFamily => 2
    case Unknown => 3
  }

  /** `getCommand` over the reordered table. */
  function GetCommandReordered(command: Option<string>): (r: Command)
    ensures command.None? ==> r == Unknown
    ensures command.Some? ==> r.Prefix() <= command.value
    ensures command.Some? ==> forall c: Command :: ReorderedIndex(c) < ReorderedIndex(r) ==> !(c.Prefix() <= command.value)
  {
    match command
    case None => Unknown
    case Some(s) =>
      var k := PrefixTable.FirstMatch(Prefixes(ReorderedValues), s);
      assert forall c: Command :: ReorderedValues[ReorderedIndex(c)] == c;
      if k < |ReorderedValues| then ReorderedValues[k] else Unknown
  }

  /**
   * Corrected: an invitation text reaches `START_WITH_INVITE`, the bare "/start"
   * still reaches `START`, and "/create_family" is unaffected.
   */
  lemma ReorderedRoutesInvite(code: string, s: string)
    ensures GetCommandReordered(Some("/start " + code)) == StartWithInvite
    ensures GetCommandReordered(Some("/start")) == Start
    ensures "/create_family" <= s ==> GetCommandReordered(Some(s)) == CreateFamily
  {
    var ps := Prefixes(ReorderedValues);
    assert ps[0] == "/start " && ps[1] == "/start" && ps[2] == "/create_family";
    assert "/start " <= "/start " + code;
    assert !("/start " <= "/start") && "/start" <= "/start";
    if "/create_family" <= s {
      assert s[1] == 'c';
      assert !(ps[0] <= s) && !(ps[1] <= s) && ps[2] <= s;
    }
  }
}
