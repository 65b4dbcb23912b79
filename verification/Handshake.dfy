/** The accept or reject decision of the handshake server (handshake-server.cpp). */
module Handshake {
  import opened Bytes
  import opened Auth

  // ----- Looking things up in the text -----

  predicate OccursAt(s: Text, pattern: Text, i: nat)
  {
    i + |pattern| <= |s| && s[i..i + |pattern|] == pattern
  }

  /** std::string::find: the first occurrence at or after `from`. */
  function Find(s: Text, pattern: Text, from: nat): (r: Option<nat>)
    requires from <= |s|
    ensures r.Some? ==> from <= r.value && OccursAt(s, pattern, r.value)
    ensures forall i :: from <= i <= |s| && (r.None? || i < r.value) ==> !OccursAt(s, pattern, i)
    decreases |s| - from
  {
    if OccursAt(s, pattern, from) then Some(from)
    else if from == |s| then None
    else Find(s, pattern, from + 1)
  }

  const QUOTE: Char8 := '"'

  function LongPattern(key: Text): Text { [QUOTE] + key + [QUOTE, ':'] }

  function StringPattern(key: Text): Text { LongPattern(key) + [QUOTE] }

  /** The empty text stands for a missing field. */
  function JsonGetString(json: Text, key: Text): Text
  {
    match Find(json, StringPattern(key), 0)
    case None => []
    case Some(pos) =>
      var begin := pos + |StringPattern(key)|;
      match Find(json, [QUOTE], begin)
      case None => []
      case Some(end) => json[begin..end]
  }

  predicate IsDigit(c: Char8) { '0' <= c <= '9' }

  predicate IsSpace(c: Char8) { c == ' ' || '\t' <= c <= '\r' }

  function DigitsValue(s: Text, acc: nat): nat
  {
    if s == [] || !IsDigit(s[0]) then acc else DigitsValue(s[1..], 10 * acc + (s[0] as int - '0' as int))
  }

  /** atoll, for values that fit (its behaviour beyond that is undefined). */
  function Atoll(s: Text): int
  {
    if s == [] then 0
    else if IsSpace(s[0]) then Atoll(s[1..])
    else if s[0] == '-' then 0 - (DigitsValue(s[1..], 0) as int)
    else if s[0] == '+' then DigitsValue(s[1..], 0)
    else DigitsValue(s, 0)
  }

  /** White space is skipped and a sign is taken; a number ends before the first other character. */
  lemma AtollReads(c: Char8, s: Text)
    ensures Atoll([]) == 0
    ensures IsSpace(c) <==> c as int in {9, 10, 11, 12, 13, 32}
    ensures IsSpace(c) ==> Atoll([c] + s) == Atoll(s)
    ensures Atoll(['-'] + s) == -(DigitsValue(s, 0) as int) && Atoll(['+'] + s) == DigitsValue(s, 0)
    ensures IsDigit(c) ==> Atoll([c] + s) == DigitsValue([c] + s, 0)
    ensures !IsSpace(c) && !IsDigit(c) && c != '-' && c != '+' ==> Atoll([c] + s) == 0
  {
  }

  /** -1 stands for a missing field. */
  function JsonGetLong(json: Text, key: Text): int
  {
    match Find(json, LongPattern(key), 0)
    case None => -1
    case Some(pos) => Atoll(json[pos + |LongPattern(key)|..])
  }

  // ----- The decision -----

  const REQUEST: Text := "request"
  const CHALLENGE: Text := "challenge"
  const HMAC: Text := "hmac"
  const TS: Text := "ts"
  const SALT: Text := "salt"

  const RECEIVE_LIMIT := 511

  datatype Decision = Ignored | NoToken | BadChallenge | WrongMac | Stale | NoSalt | Accepted(salt: Text)

  /** The std::string made from the receive buffer ends at the first NUL. */
  function UntilNul(buf: Text): Text
  {
    if buf == [] || buf[0] == 0 as char then [] else [buf[0]] + UntilNul(buf[1..])
  }

  predicate Fresh(ts: int, now: int)
  {
    ts > 0 ==> -5 <= now - ts <= 30
  }

  predicate PasswordOk(password: seq<Byte>)
  {
    |password| < MESSAGE_LIMIT
  }

  function Decide(password: seq<Byte>, buf: Text, now: int): Decision
    requires PasswordOk(password) && |buf| <= RECEIVE_LIMIT
  {
    UntilNulShrinks(buf);
    var msg := UntilNul(buf);
    if Find(msg, REQUEST, 0).None? then Ignored
    else
      var auth := Authenticate(password, msg);
      if !auth.Accepted? then auth
      else if !Fresh(JsonGetLong(msg, TS), now) then Stale
      else
        var salt := JsonGetString(msg, SALT);
        if salt == [] then NoSalt else Accepted(salt)
  }

  /** Accepted([]) when the password, if one is set, was shown to be known. */
  function Authenticate(password: seq<Byte>, msg: Text): Decision
    requires PasswordOk(password) && |msg| <= RECEIVE_LIMIT
  {
    if password == [] then Accepted([])
    else
      var challengeHex, receivedMac := JsonGetString(msg, CHALLENGE), JsonGetString(msg, HMAC);
      if challengeHex == [] || receivedMac == [] then NoToken
      else
        ExtractShrinks(msg, CHALLENGE);
        var challenge := Unhex(challengeHex);
        if challenge == [] then BadChallenge
        else if Hex(Hmac(password, challenge)) != receivedMac then WrongMac
        else Accepted([])
  }

  lemma {:induction false} UntilNulIs(before: Text, after: Text)
    requires forall i :: 0 <= i < |before| ==> before[i] != 0 as char
    ensures UntilNul(before + [0 as char] + after) == before == UntilNul(before)
  {
    if before != [] {
      UntilNulIs(before[1..], after);
      assert (before + [0 as char] + after)[1..] == before[1..] + [0 as char] + after;
    }
  }

  lemma UntilNulShrinks(buf: Text)
    ensures |UntilNul(buf)| <= |buf|
  {
  }

  lemma ExtractShrinks(msg: Text, key: Text)
    ensures |JsonGetString(msg, key)| <= |msg| && |Unhex(JsonGetString(msg, key))| <= |msg|
  {
  }

  method HandleMessage(password: seq<Byte>, buf: Text, now: int) returns (decision: Decision)
    requires PasswordOk(password) && |buf| <= RECEIVE_LIMIT
    ensures decision == Decide(password, buf, now)
  {
    hide Find, JsonGetString, Hmac, Hex, Unhex, Fresh;
    UntilNulShrinks(buf);
    var msg := UntilNul(buf);
    if Find(msg, REQUEST, 0).None? { return Ignored; }
    if password != [] {
      var challengeHex, receivedMac := JsonGetString(msg, CHALLENGE), JsonGetString(msg, HMAC);
      if challengeHex == [] || receivedMac == [] { return NoToken; }
      ExtractShrinks(msg, CHALLENGE);
      var challenge := FromHex(challengeHex);
      if challenge == [] { return BadChallenge; }
      var expected := HmacSha256(password, challenge);
      var expectedHex := ToHex(expected);
      var equal := ConstTimeEqual(expectedHex, receivedMac);
      if !equal { return WrongMac; }
    }
    if !Fresh(JsonGetLong(msg, TS), now) { return Stale; }
    var salt := JsonGetString(msg, SALT);
    if salt == [] { return NoSalt; }
    decision := Accepted(salt);
  }
}
