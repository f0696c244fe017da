/**
 * `CallBack`: the inline-button tokens and `getAction`, which returns the first
 * constant, in declaration order, whose token starts the callback data.
 */
module CallBack {
  import opened Wrappers
  import PrefixTable

  datatype Action = Buy | ConfirmClear | ClearAll | Refresh | Unknown {

    /** The token the constant carries. */
    function Prefix(): string {
      match this
      case Buy => "buy"
      case ConfirmClear => "confirm_clear"
      case ClearAll => "clear_all"
      case Refresh => "refresh"
      case Unknown => ""
    }

    /** The constant's position in `CallBack.values()`. */
    function Ordinal(): nat {
      match this
      case Buy => 0
      case ConfirmClear => 1
      case ClearAll => 2
      case Refresh => 3
      case Unknown => 4
    }
  }

  /** `CallBack.values()`, in declaration order. */
  const Values: seq<Action> := [Buy, ConfirmClear, ClearAll, Refresh, Unknown]

  function Prefixes(values: seq<Action>): (ps: seq<string>)
    ensures |ps| == |values|
    ensures forall i :: 0 <= i < |values| ==> ps[i] == values[i].Prefix()
  {
    seq(|values|, i requires 0 <= i < |values| => values[i].Prefix())
  }

  /** The first-match search over an arbitrary ordering of the constants. */
  function Lookup(values: seq<Action>, s: string): Action {
    var k := PrefixTable.FirstMatch(Prefixes(values), s);
    if k < |values| then values[k] else Unknown
  }

  /**
   * `CallBack.getAction`: `null` is `UNKNOWN`; otherwise the first constant in
   * declaration order whose token starts `action`.
   */
  function GetAction(action: Option<string>): (r: Action)
    ensures action.None? ==> r == Unknown
    ensures action.Some? ==> r.Prefix() <= action.value
    ensures action.Some? ==> forall a: Action :: a.Ordinal() < r.Ordinal() ==> !(a.Prefix() <= action.value)
  {
    match action
    case None => Unknown
    case Some(s) =>
      assert forall a: Action :: Values[a.Ordinal()] == a;
      Lookup(Values, s)
  }

  /** The two characters that open each non-empty token tell the tokens apart. */
  function ActionOfHead(head: string): Action {
    if head == "bu" then Buy
    else if head == "co" then ConfirmClear
    else if head == "cl" then ClearAll
    else if head == "re" then Refresh
    else Unknown
  }

  /** Every non-empty token is told apart by its first two characters. */
  lemma HeadDetermines(a: Action)
    requires a != Unknown
    ensures |a.Prefix()| >= 2 && ActionOfHead(a.Prefix()[..2]) == a
  {
    match a
    case Buy => assert a.Prefix()[..2] == "bu";
    case ConfirmClear => assert a.Prefix()[..2] == "co";
    case ClearAll => assert a.Prefix()[..2] == "cl";
    case Refresh => assert a.Prefix()[..2] == "re";
  }

  /** None of the four non-empty tokens is a prefix of another. */
  lemma PrefixesIndependent(a: Action, b: Action)
    requires a != b && a != Unknown && b != Unknown
    ensures !(a.Prefix() <= b.Prefix())
  {
    var p, q := a.Prefix(), b.Prefix();
    HeadDetermines(a);
    HeadDetermines(b);
    assert p[..2] != q[..2];
  }

  /** Two non-empty tokens that both start `s` are the same token. */
  lemma UniqueMatch(a: Action, b: Action, s: string)
    requires a != Unknown && b != Unknown
    requires a.Prefix() <= s && b.Prefix() <= s
    ensures a == b
  {
    HeadDetermines(a);
    HeadDetermines(b);
    assert a.Prefix()[..2] == s[..2] == b.Prefix()[..2];
  }

  /**
   * At most one non-empty token starts any given string, so each action is
   * returned exactly when its token starts the data, and `UNKNOWN` exactly when
   * none does.
   */
  lemma GetActionCases(s: string, a: Action)
    requires a != Unknown
    ensures GetAction(Some(s)) == a <==> a.Prefix() <= s
    ensures GetAction(Some(s)) == Unknown <==> forall b: Action :: b != Unknown ==> !(b.Prefix() <= s)
  {
    var r := GetAction(Some(s));
    if a.Prefix() <= s {
      assert !(a.Ordinal() < r.Ordinal());
      UniqueMatch(r, a, s);
    }
    if r == Unknown {
      forall b: Action | b != Unknown
        ensures !(b.Prefix() <= s)
      {
        assert b.Ordinal() < r.Ordinal();
      }
    }
  }

  /**
   * The declaration order of the four non-empty tokens does not matter: every
   * ordering of them, followed by `UNKNOWN`, classifies every string alike.
   */
  lemma OrderIrrelevant(order: seq<Action>, s: string)
    requires |order| == 4 && Unknown !in order
    requires forall b: Action :: b != Unknown ==> b in order
    ensures Lookup(order + [Unknown], s) == GetAction(Some(s))
  {
    var values := order + [Unknown];
    var ps := Prefixes(values);
    var k := PrefixTable.FirstMatch(ps, s);
    assert ps[|order|] == "" && "" <= s;
    var t := values[k];
    if k < |order| {
      assert t == order[k] && t != Unknown && t.Prefix() <= s;
      GetActionCases(s, t);
    } else {
      forall b: Action | b != Unknown
        ensures !(b.Prefix() <= s)
      {
        assert b in order;
        var i :| 0 <= i < |order| && order[i] == b;
        assert ps[i] == b.Prefix();
      }
      GetActionCases(s, Buy);
    }
  }

  /** A token starting "buy" classifies as `BUY`, whatever follows. */
  lemma BuyToken(rest: string)
    ensures GetAction(Some("buy" + rest)) == Buy
  {
    assert "buy" <= "buy" + rest;
    GetActionCases("buy" + rest, Buy);
  }

  /** The cancel token "refresh_list" classifies as `REFRESH` through its prefix "refresh". */
  lemma RefreshListToken()
    ensures GetAction(Some("refresh_list")) == Refresh
  {
    assert "refresh" <= "refresh_list";
    GetActionCases("refresh_list", Refresh);
  }

  lemma ConfirmClearToken()
    ensures GetAction(Some("confirm_clear")) == ConfirmClear
  {
    GetActionCases("confirm_clear", ConfirmClear);
  }

  lemma ClearAllToken()
    ensures GetAction(Some("clear_all")) == ClearAll
  {
    GetActionCases("clear_all", ClearAll);
  }

  /** The confirmation keyboard's tokens and the rendered `buy<id>` tokens classify as intended. */
  lemma KnownTokens(digits: string)
    ensures GetAction(Some("confirm_clear")) == ConfirmClear
    ensures GetAction(Some("clear_all")) == ClearAll
    ensures GetAction(Some("refresh_list")) == Refresh
    ensures GetAction(Some("buy" + digits)) == Buy
  {
    ConfirmClearToken();
    ClearAllToken();
    RefreshListToken();
    BuyToken(digits);
  }
}
