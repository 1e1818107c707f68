/** The admin session kept by the client (client/src/context/AuthContext.jsx):
    the token and its expiry in `localStorage`, modelled as a map from key to
    string, the `Authorization` default header of the HTTP client, and the
    signed-in user. Clock readings (`new Date().getTime()`) are inputs. */
module Auth {
  import opened Wrappers
  import opened Text

  const TokenExpiryDays: nat := 2
  /** 2 · 24 · 60 · 60 · 1000 = 172 800 000 ms. */
  const TokenExpiryMs: nat := TokenExpiryDays * 24 * 60 * 60 * 1000

  const TokenKey: string := "token"
  const ExpiryKey: string := "tokenExpiry"
  const UserKey: string := "user"

  /** `setAxiosAuthHeader`: a bearer header for a non-empty token, none otherwise. */
  function HeaderFor(token: string): Option<string> {
    if token != "" then Some("Bearer " + token) else None
  }

  /** The storage after `setTokenWithExpiry(token)` at time `now`. */
  function WithToken(storage: map<string, string>, token: string, now: int): map<string, string> {
    storage[TokenKey := token][ExpiryKey := IntToString(now + TokenExpiryMs)]
  }

  /** The storage after `clearToken`. */
  function WithoutToken(storage: map<string, string>): map<string, string> {
    storage - {TokenKey, ExpiryKey, UserKey}
  }

  /** `isTokenExpired` (client/src/context/AuthContext.jsx:46-52): expired when
      no expiry is stored (or it is empty), otherwise exactly when `now` is
      past it; an expiry that does not read as a number (NaN) never compares
      greater, so it never expires. */
  predicate Expired(storage: map<string, string>, now: int) {
    if ExpiryKey !in storage || storage[ExpiryKey] == "" then true
    else
      match ParseInt(storage[ExpiryKey])
      case Some(expiry) => now > expiry
      case None => false
  }

  /** `isAuthenticated: !!user && !isTokenExpired()`. */
  predicate Authenticated(user: Option<string>, storage: map<string, string>, now: int) {
    user.Some? && !Expired(storage, now)
  }

  /** `Math.round(d / q)` for a positive `q`: halves round up. */
  function RoundDiv(d: int, q: nat): int
    requires q > 0
  {
    (2 * d + q) / (2 * q)
  }

  /** `getRemainingTime` (client/src/context/AuthContext.jsx:276-282): whole
      minutes left, rounded; 0 without a user or once expired; NaN (`None`)
      when the stored expiry does not read as a number. */
  function RemainingTime(user: Option<string>, storage: map<string, string>, now: int): Option<nat> {
    if user.None? || Expired(storage, now) then Some(0)
    else
      match ParseInt(storage[ExpiryKey])
      case Some(expiry) =>
        var m := RoundDiv(expiry - now, 60000);
        Some(if m < 0 then 0 else m)
      case None => None
  }

  // ------------------------------------------------------- formatting

  /** The unit word, plural exactly when the count is not 1. */
  function Unit(base: string, n: int): string {
    if n != 1 then base + "s" else base
  }

  function Count(n: nat, base: string): string {
    NatToString(n) + " " + Unit(base, n)
  }

  /** A count of the larger unit, followed by the count of the smaller
      one when that is positive. */
  function TwoCounts(n1: nat, b1: string, n2: nat, b2: string): string {
    Count(n1, b1) + (if n2 > 0 then " " + Count(n2, b2) else "")
  }

  /** `getRemainingTimeFormatted` (client/src/context/AuthContext.jsx:285-299).
      NaN minutes fall through every test to the days branch. */
  function Formatted(minutes: Option<nat>): string {
    match minutes
    case None => "NaN days"
    case Some(m) =>
      if m == 0 then "Expired"
      else if m < 60 then Count(m, "minute")
      else if m < 1440 then TwoCounts(m / 60, "hour", m % 60, "minute")
      else TwoCounts(m / 1440, "day", (m % 1440) / 60, "hour")
  }

  /** The value of a unit word read for count `n`, which must agree in number. */
  function UnitValue(w: string, n: int): Option<nat> {
    if w == Unit("minute", n) then Some(1)
    else if w == Unit("hour", n) then Some(60)
    else if w == Unit("day", n) then Some(1440)
    else None
  }

  /** A decimal numeral: one or more digits. */
  function Numeral(w: string): Option<nat> {
    if w != "" && forall k :: 0 <= k < |w| ==> IsDigit(w[k]) then Some(RadixValue(w, false)) else None
  }

  /** One count and its unit word in front of the minutes `tail` states. */
  function ReadStep(count: Option<nat>, unit: string, tail: Option<nat>): Option<nat> {
    match count
    case None => None
    case Some(n) =>
      if n > 0 && UnitValue(unit, n).Some? && tail.Some? then Some(n * UnitValue(unit, n).value + tail.value) else None
  }

  /** Reads words "<count> <unit> <count> <unit> …" back into minutes; every
      count must be positive and its unit agree with it in number. */
  function ReadWords(ws: seq<string>): Option<nat>
    decreases |ws|
  {
    if ws == [] then Some(0)
    else if |ws| < 2 then None
    else ReadStep(Numeral(ws[0]), ws[1], ReadWords(ws[2..]))
  }

  /** The minutes a formatted text states. */
  function ReadBack(s: string): Option<nat> {
    ReadWords(Split(s, ' '))
  }

  /** A count and its unit word. */
  function Pair(n: nat, base: string): seq<string> {
    [NatToString(n), Unit(base, n)]
  }

  /** The words of `TwoCounts`. */
  function TwoPairs(n1: nat, b1: string, n2: nat, b2: string): seq<string> {
    Pair(n1, b1) + (if n2 > 0 then Pair(n2, b2) else [])
  }

  /** The words of a formatted positive duration. */
  function Words(m: nat): seq<string>
    requires m > 0
  {
    if m < 60 then Pair(m, "minute")
    else if m < 1440 then TwoPairs(m / 60, "hour", m % 60, "minute")
    else TwoPairs(m / 1440, "day", (m % 1440) / 60, "hour")
  }

  /** The admin session: storage, header and signed-in user. */
  class Session {
    var storage: map<string, string>
    var authHeader: Option<string>
    var user: Option<string>

    constructor(storage0: map<string, string>)
      ensures storage == storage0 && authHeader == None && user == None
    {
      storage := storage0;
      authHeader := None;
      user := None;
    }

    /** `setTokenWithExpiry` (client/src/context/AuthContext.jsx:35-43). */
    method SetTokenWithExpiry(token: string, now: int)
      modifies this
      ensures storage == WithToken(old(storage), token, now)
      ensures authHeader == HeaderFor(token) && user == old(user)
    {
      storage := storage[TokenKey := token];
      storage := storage[ExpiryKey := IntToString(now + TokenExpiryMs)];
      authHeader := HeaderFor(token);
    }

    /** `clearToken` (client/src/context/AuthContext.jsx:55-60). */
    method ClearToken()
      modifies this
      ensures storage == WithoutToken(old(storage))
      ensures authHeader == None && user == old(user)
    {
      storage := storage - {TokenKey};
      storage := storage - {ExpiryKey};
      storage := storage - {UserKey};
      authHeader := None;
    }

    /** The client side of `logout`: clear the token, forget the user. */
    method Logout()
      modifies this
      ensures storage == WithoutToken(old(storage)) && authHeader == None && user == None
    {
      ClearToken();
      user := None;
    }

    predicate IsTokenExpired(now: int)
      reads this
    {
      Expired(storage, now)
    }

    function RemainingTimeFormatted(now: int): string
      reads this
    {
      Formatted(RemainingTime(user, storage, now))
    }
  }

  // ------------------------------------------------------------- lemmas

  /** A token set at `now` is valid up to and including `now` + 2 days,
      and expired at every later instant. */
  lemma ValidUntilExpiry(storage: map<string, string>, token: string, now: int, t: int)
    ensures Expired(WithToken(storage, token, now), t) ==> t > now + TokenExpiryMs
    ensures t > now + TokenExpiryMs ==> Expired(WithToken(storage, token, now), t)
  {
    ParseIntToString(now + TokenExpiryMs);
    var s := IntToString(now + TokenExpiryMs);
    assert s != "" by {
      if now + TokenExpiryMs >= 0 {
        assert |NatToString(now + TokenExpiryMs)| >= 1;
      }
    }
  }

  /** After `clearToken` the token counts as expired, the session is not
      authenticated, and no time remains. */
  lemma ClearedIsExpired(storage: map<string, string>, user: Option<string>, now: int)
    ensures Expired(WithoutToken(storage), now)
    ensures !Authenticated(user, WithoutToken(storage), now)
    ensures RemainingTime(user, WithoutToken(storage), now) == Some(0)
    ensures Formatted(RemainingTime(user, WithoutToken(storage), now)) == "Expired"
  {
    assert ExpiryKey !in WithoutToken(storage);
  }

  /** Signed in with a token set at `t0`, the time left at `t` up to the
      expiry is the rounded number of minutes until then, at most two days'
      worth; no time is left without a user. */
  lemma RemainingAfterLogin(storage: map<string, string>, token: string, user: Option<string>, t0: int, t: int)
    requires t0 <= t <= t0 + TokenExpiryMs
    ensures user.Some? ==>
              RemainingTime(user, WithToken(storage, token, t0), t) == Some(RoundDiv(t0 + TokenExpiryMs - t, 60000))
    ensures user.Some? ==> RemainingTime(user, WithToken(storage, token, t0), t).value <= 2880
    ensures user.None? ==> RemainingTime(user, WithToken(storage, token, t0), t) == Some(0)
  {
    ValidUntilExpiry(storage, token, t0, t);
    ParseIntToString(t0 + TokenExpiryMs);
  }

  /** "Expired" is shown exactly when no whole minute is left. */
  lemma ExpiredExactlyAtZero(m: nat)
    ensures Formatted(Some(m)) == "Expired" ==> m == 0
    ensures m == 0 ==> Formatted(Some(m)) == "Expired"
  {
    if m > 0 {
      var n := if m < 60 then m else if m < 1440 then m / 60 else m / 1440;
      assert IsDigit(Formatted(Some(m))[0]) by {
        assert Formatted(Some(m))[0] == NatToString(n)[0];
      }
    }
  }

  /** One or two counts, joined by single blanks. */
  lemma JoinCounts(n1: nat, b1: string, n2: nat, b2: string)
    ensures Count(n1, b1) == Join(Pair(n1, b1), " ")
    ensures TwoCounts(n1, b1, n2, b2) == Join(TwoPairs(n1, b1, n2, b2), " ")
  {
    var a, b, c, d := NatToString(n1), Unit(b1, n1), NatToString(n2), Unit(b2, n2);
    assert [a, b][1..] == [b];
    assert Join([a, b], " ") == a + " " + b;
    if n2 > 0 {
      assert [c, d][1..] == [d];
      assert Join([c, d], " ") == c + " " + d;
      assert [b, c, d][1..] == [c, d];
      assert Join([b, c, d], " ") == b + " " + (c + " " + d);
      assert TwoPairs(n1, b1, n2, b2) == [a, b, c, d];
      assert [a, b, c, d][1..] == [b, c, d];
      assert Join([a, b, c, d], " ") == a + " " + (b + " " + (c + " " + d));
    } else {
      assert TwoPairs(n1, b1, n2, b2) == [a, b];
    }
  }

  /** The words of a formatted duration, joined by single blanks. */
  lemma FormattedWords(m: nat)
    requires m > 0
    ensures Formatted(Some(m)) == Join(Words(m), " ")
  {
    if m < 60 {
      JoinCounts(m, "minute", 0, "");
    } else if m < 1440 {
      JoinCounts(m / 60, "hour", m % 60, "minute");
    } else {
      JoinCounts(m / 1440, "day", (m % 1440) / 60, "hour");
    }
  }

  /** Digits and unit words hold no blank. */
  lemma WordsUnblanked(m: nat)
    requires m > 0
    ensures forall k :: 0 <= k < |Words(m)| ==> ' ' !in Words(m)[k]
  {
  }

  /** The value of each unit word, for the count it agrees with. */
  lemma UnitValues(n: int)
    ensures UnitValue(Unit("minute", n), n) == Some(1)
    ensures UnitValue(Unit("hour", n), n) == Some(60)
    ensures UnitValue(Unit("day", n), n) == Some(1440)
  {
  }

  /** A count's digits read back as the count. */
  lemma NumeralOf(n: nat)
    ensures Numeral(NatToString(n)) == Some(n)
  {
    NatToStringValue(n);
  }

  /** `ReadWords` takes the words two at a time from the front. */
  lemma ReadFront(w0: string, w1: string, rest: seq<string>)
    ensures ReadWords([w0, w1] + rest) == ReadStep(Numeral(w0), w1, ReadWords(rest))
  {
    assert ([w0, w1] + rest)[2..] == rest;
  }

  /** Reading a count and its unit word back. */
  lemma ReadPair(n: nat, base: string, v: nat, rest: seq<string>)
    requires n > 0 && UnitValue(Unit(base, n), n) == Some(v)
    ensures ReadWords(Pair(n, base) + rest)
            == if ReadWords(rest).Some? then Some(n * v + ReadWords(rest).value) else None
  {
    ReadFront(NatToString(n), Unit(base, n), rest);
    NumeralOf(n);
  }

  /** One or two counts read back as their sum in minutes. */
  lemma ReadCounts(n1: nat, b1: string, v1: nat, n2: nat, b2: string, v2: nat)
    requires n1 > 0 && UnitValue(Unit(b1, n1), n1) == Some(v1)
    requires UnitValue(Unit(b2, n2), n2) == Some(v2)
    ensures ReadWords(Pair(n1, b1)) == Some(n1 * v1)
    ensures ReadWords(TwoPairs(n1, b1, n2, b2)) == Some(n1 * v1 + if n2 > 0 then n2 * v2 else 0)
  {
    assert Pair(n1, b1) + [] == Pair(n1, b1);
    ReadPair(n1, b1, v1, []);
    if n2 > 0 {
      assert Pair(n2, b2) + [] == Pair(n2, b2);
      ReadPair(n2, b2, v2, []);
      ReadPair(n1, b1, v1, Pair(n2, b2));
    } else {
      assert TwoPairs(n1, b1, n2, b2) == Pair(n1, b1);
    }
  }

  /** Whole days and the whole hours after them make up all but the
      leftover minutes. */
  lemma DaysAndHours(m: nat)
    ensures (m / 1440) * 1440 + ((m % 1440) / 60) * 60 == m - m % 60
  {
    var d, r := m / 1440, m % 1440;
    var h, s := r / 60, r % 60;
    assert m == (d * 24 + h) * 60 + s;
    assert m % 60 == s;
  }

  lemma ReadBackHours(m: nat, h: nat, r: nat)
    requires 60 <= m < 1440 && h == m / 60 && r == m % 60
    ensures ReadWords(Words(m)) == Some(m)
  {
    assert Words(m) == TwoPairs(h, "hour", r, "minute");
    UnitValues(h);
    UnitValues(r);
    ReadCounts(h, "hour", 60, r, "minute", 1);
  }

  lemma ReadBackDays(m: nat, d: nat, h: nat)
    requires 1440 <= m && d == m / 1440 && h == (m % 1440) / 60
    ensures ReadWords(Words(m)) == Some(m - m % 60)
  {
    assert Words(m) == TwoPairs(d, "day", h, "hour");
    DaysAndHours(m);
    UnitValues(d);
    UnitValues(h);
    ReadCounts(d, "day", 1440, h, "hour", 60);
  }

  /** The words of a duration read back as its minutes, exactly below one
      day and truncated to whole hours from one day on. */
  lemma WordsReadBack(m: nat)
    requires m > 0
    ensures ReadWords(Words(m)) == Some(if m < 1440 then m else m - m % 60)
  {
    if m < 60 {
      UnitValues(m);
      ReadCounts(m, "minute", 1, 0, "minute", 1);
    } else if m < 1440 {
      ReadBackHours(m, m / 60, m % 60);
    } else {
      ReadBackDays(m, m / 1440, (m % 1440) / 60);
    }
  }

  /** The formatted text reads back as the minutes left, exactly below one
      day and truncated to whole hours from one day on; every count shown is
      positive and agrees in number with its unit. */
  lemma FormattedReadsBack(m: nat)
    requires m > 0
    ensures ReadBack(Formatted(Some(m))) == Some(if m < 1440 then m else m - m % 60)
  {
    var ws := Words(m);
    FormattedWords(m);
    WordsUnblanked(m);
    SplitJoin(ws, ' ', "");
    assert Split(Join(ws, " "), ' ') == ws by {
      assert [' '] + "" == " ";
      forall k | 0 <= k < |ws| - 1 ensures "" + ws[k + 1] == ws[1..][k] {
        assert ws[1..][k] == ws[k + 1];
      }
    }
    WordsReadBack(m);
  }
}
