/** What the first-match extraction of the handshake server finds in a flat JSON object, and hence
    which requests the server accepts. */
module HandshakeJson {
  import opened Bytes
  import opened Auth
  import opened Handshake

  // ----- Flat JSON objects -----

  datatype Value = Str(text: Text) | Num(digits: Text)

  datatype Field = Field(key: Text, value: Value)

  /** Text without quotes and without NUL. */
  predicate Clean(s: Text)
  {
    forall i :: 0 <= i < |s| ==> s[i] != QUOTE && s[i] != 0 as char
  }

  predicate Digits(s: Text)
  {
    s != [] && forall i :: 0 <= i < |s| ==> IsDigit(s[i])
  }

  predicate FieldOk(f: Field)
  {
    Clean(f.key) && match f.value case Str(t) => Clean(t) case Num(d) => Digits(d)
  }

  function FieldText(f: Field): Text
  {
    LongPattern(f.key) + (match f.value case Str(t) => [QUOTE] + t + [QUOTE] case Num(d) => d)
  }

  /** The fields from the k-th on, each with what separates it from the next, and the closing brace. */
  function Tail(fields: seq<Field>, k: nat): (s: Text)
    requires k <= |fields|
    ensures s != []
    decreases |fields| - k
  {
    if k == |fields| then ['}']
    else FieldText(fields[k]) + (if k + 1 < |fields| then [','] else []) + Tail(fields, k + 1)
  }

  function Render(fields: seq<Field>): Text { ['{'] + Tail(fields, 0) }

  predicate ObjectOk(fields: seq<Field>)
  {
    && (forall i :: 0 <= i < |fields| ==> FieldOk(fields[i]))
    && (forall i, j :: 0 <= i < j < |fields| ==> fields[i].key != fields[j].key)
  }

  /** A key that cannot be confused with punctuation. */
  predicate Plain(key: Text)
  {
    key != [] && Clean(key) && key[0] != ':' && key[0] != ',' && key[0] != '}'
  }

  // ----- Where a pattern can occur -----

  /** The two patterns the server searches for. */
  function Pattern(key: Text, strings: bool): Text
  {
    if strings then StringPattern(key) else LongPattern(key)
  }

  /** A match is a quote, the key up to the next quote, a colon and, for strings, another quote. */
  lemma MatchShape(s: Text, i: nat, key: Text, strings: bool)
    requires Plain(key) && OccursAt(s, Pattern(key, strings), i)
    ensures i + 2 + |key| < |s| && s[i] == QUOTE && s[i + 1] == key[0] && s[i + 1..i + 1 + |key|] == key
    ensures forall m :: i < m < i + 1 + |key| ==> s[m] != QUOTE
    ensures s[i + 1 + |key|] == QUOTE && s[i + 2 + |key|] == ':'
    ensures strings ==> i + 3 + |key| < |s| && s[i + 3 + |key|] == QUOTE
  {
    var p, n := Pattern(key, strings), |key|;
    assert |p| == if strings then n + 4 else n + 3;
    assert p[0] == QUOTE && p[1] == key[0] && p[1 + n] == QUOTE && p[2 + n] == ':' && p[1..1 + n] == key;
    assert strings ==> p[3 + n] == QUOTE;
    hide Pattern, Plain;
    assert forall m :: 0 <= m < |p| ==> s[i + m] == s[i..i + |p|][m] == p[m];
    assert s[i + 1..i + 1 + n] == p[1..1 + n];
    forall m | i < m < i + 1 + |key|
      ensures s[m] != QUOTE
    {
      assert s[i + (m - i)] == p[m - i] == key[m - i - 1];
    }
  }

  /** What follows a field. */
  predicate Follows(rest: Text)
  {
    rest != [] && (rest[0] == ',' || rest[0] == '}')
  }

  predicate Sought(f: Field, key: Text, strings: bool)
  {
    f.key == key && (strings ==> f.value.Str?)
  }

  predicate NoneSought(fields: seq<Field>, k: nat, m: nat, key: Text, strings: bool)
    requires k <= m <= |fields|
  {
    forall j :: k <= j < m ==> !Sought(fields[j], key, strings)
  }

  /** Where the quotes of a field are. */
  lemma FieldShape(f: Field, rest: Text)
    requires FieldOk(f) && Follows(rest)
    ensures var (s, n) := (FieldText(f) + rest, |f.key|);
            && s[0] == QUOTE && s[1..1 + n] == f.key && s[1 + n] == QUOTE && s[2 + n] == ':'
            && (forall m :: 0 < m < 1 + n ==> s[m] != QUOTE)
            && match f.value
               case Num(d) => |FieldText(f)| == 3 + n + |d| && forall m :: 2 + n <= m < 3 + n + |d| ==> s[m] != QUOTE
               case Str(t) =>
                 && |FieldText(f)| == 5 + n + |t|
                 && s[3 + n] == QUOTE && s[4 + n..4 + n + |t|] == t && s[4 + n + |t|] == QUOTE && s[5 + n + |t|] == rest[0]
                 && forall m :: 3 + n < m < 4 + n + |t| ==> s[m] != QUOTE
  {
    var s, n := FieldText(f) + rest, |f.key|;
    assert forall m :: 0 < m < 1 + n ==> s[m] == f.key[m - 1];
    match f.value
    case Num(d) =>
      assert forall m :: 3 + n <= m < 3 + n + |d| ==> s[m] == d[m - 3 - n];
    case Str(t) =>
      assert forall m :: 3 + n < m < 4 + n + |t| ==> s[m] == t[m - 4 - n];
  }

  /** Inside a field nothing matches except, possibly, the field's own key. */
  lemma NoMatchInField(f: Field, rest: Text, i: nat, key: Text, strings: bool)
    requires FieldOk(f) && Follows(rest) && Plain(key) && i < |FieldText(f)|
    requires i > 0 || !Sought(f, key, strings)
    ensures !OccursAt(FieldText(f) + rest, Pattern(key, strings), i)
  {
    var s, n := FieldText(f) + rest, |f.key|;
    FieldShape(f, rest);
    hide FieldText, OccursAt, Pattern, FieldOk;
    if OccursAt(s, Pattern(key, strings), i) {
      MatchShape(s, i, key, strings);
      assert false;
    }
  }

  /** The sought field itself matches at its first character. */
  lemma SoughtMatches(f: Field, rest: Text)
    ensures OccursAt(FieldText(f) + rest, LongPattern(f.key), 0)
    ensures f.value.Str? ==> OccursAt(FieldText(f) + rest, StringPattern(f.key), 0)
  {
    var s := FieldText(f) + rest;
    assert s[0..|LongPattern(f.key)|] == LongPattern(f.key);
    if f.value.Str? {
      assert s[0..|StringPattern(f.key)|] == StringPattern(f.key);
    }
  }

  // ----- Searching the whole object -----

  function Rest(fields: seq<Field>, k: nat): (s: Text)
    requires k < |fields|
    ensures Follows(s)
  {
    if k + 1 < |fields| then [','] + Tail(fields, k + 1) else Tail(fields, k + 1)
  }

  lemma TailIs(fields: seq<Field>, k: nat)
    requires k < |fields|
    ensures Tail(fields, k) == FieldText(fields[k]) + Rest(fields, k)
  {
    hide FieldText;
    if k + 1 < |fields| {
      assert FieldText(fields[k]) + [','] + Tail(fields, k + 1) == FieldText(fields[k]) + ([','] + Tail(fields, k + 1));
    } else {
      assert FieldText(fields[k]) + [] + Tail(fields, k + 1) == FieldText(fields[k]) + Tail(fields, k + 1);
    }
  }

  /** Where the m-th field begins, counted from the k-th. */
  function Offset(fields: seq<Field>, k: nat, m: nat): nat
    requires k <= m <= |fields|
    decreases m - k
  {
    if k == m then 0 else |FieldText(fields[k])| + (if k + 1 < |fields| then 1 else 0) + Offset(fields, k + 1, m)
  }

  lemma OccursShifted(a: Text, b: Text, p: Text, i: nat)
    ensures OccursAt(a + b, p, |a| + i) <==> OccursAt(b, p, i)
  {
    if i + |p| <= |b| {
      assert (a + b)[|a| + i..|a| + i + |p|] == b[i..i + |p|];
    }
  }

  lemma NoMatchAt(s: Text, i: nat, key: Text, strings: bool)
    requires Plain(key) && i < |s| && s[i] != QUOTE
    ensures !OccursAt(s, Pattern(key, strings), i)
  {
    if OccursAt(s, Pattern(key, strings), i) { MatchShape(s, i, key, strings); }
  }

  lemma {:induction false} TailFrom(fields: seq<Field>, k: nat, m: nat)
    requires k <= m <= |fields|
    ensures Offset(fields, k, m) <= |Tail(fields, k)| && Tail(fields, k)[Offset(fields, k, m)..] == Tail(fields, m)
    decreases m - k
  {
    hide FieldText;
    if k < m { TailFrom(fields, k + 1, m); }
  }

  /** No field before the m-th is the one sought, so nothing matches before it. */
  lemma {:induction false} NoMatchBefore(fields: seq<Field>, k: nat, m: nat, key: Text, strings: bool, i: nat)
    requires ObjectOk(fields) && Plain(key) && k <= m <= |fields| && i < Offset(fields, k, m)
    requires NoneSought(fields, k, m, key, strings)
    ensures !OccursAt(Tail(fields, k), Pattern(key, strings), i)
    decreases m - k
  {
    hide Sought, FieldText, OccursAt, Pattern;
    var text := FieldText(fields[k]);
    TailIs(fields, k);
    if i < |text| {
      NoMatchInField(fields[k], Rest(fields, k), i, key, strings);
    } else if k + 1 < |fields| {
      OccursShifted(text, Rest(fields, k), Pattern(key, strings), i - |text|);
      if i == |text| {
        NoMatchAt(Rest(fields, k), 0, key, strings);
      } else {
        OccursShifted([','], Tail(fields, k + 1), Pattern(key, strings), i - |text| - 1);
        NoMatchBefore(fields, k + 1, m, key, strings, i - |text| - 1);
      }
    }
  }

  lemma FirstIs(s: Text, p: Text, from: nat, at: nat)
    requires from <= at <= |s| && OccursAt(s, p, at) && forall i :: from <= i < at ==> !OccursAt(s, p, i)
    ensures Find(s, p, from) == Some(at)
  {
  }

  lemma FieldAt(fields: seq<Field>, m: nat)
    requires m < |fields|
    ensures 1 + Offset(fields, 0, m) <= |Render(fields)|
    ensures Render(fields)[1 + Offset(fields, 0, m)..] == FieldText(fields[m]) + Rest(fields, m)
  {
    TailFrom(fields, 0, m);
    TailIs(fields, m);
    hide Tail, FieldText, Offset, Rest;
  }

  lemma NoEarlierMatch(fields: seq<Field>, m: nat, key: Text, strings: bool, i: nat)
    requires ObjectOk(fields) && m <= |fields| && Plain(key) && i < 1 + Offset(fields, 0, m)
    requires NoneSought(fields, 0, m, key, strings)
    ensures !OccursAt(Render(fields), Pattern(key, strings), i)
  {
    hide Tail, FieldText, Offset, OccursAt, Pattern, Sought;
    if i == 0 {
      NoMatchAt(Render(fields), 0, key, strings);
    } else {
      NoMatchBefore(fields, 0, m, key, strings, i - 1);
      OccursShifted(['{'], Tail(fields, 0), Pattern(key, strings), i - 1);
    }
  }

  lemma OthersNotSought(fields: seq<Field>, m: nat, strings: bool)
    requires ObjectOk(fields) && m < |fields|
    ensures NoneSought(fields, 0, m, fields[m].key, strings)
  {
  }

  lemma SoughtAt(fields: seq<Field>, m: nat, strings: bool)
    requires m < |fields| && (strings ==> fields[m].value.Str?)
    ensures OccursAt(Render(fields), Pattern(fields[m].key, strings), 1 + Offset(fields, 0, m))
  {
    var s, p, at := Render(fields), Pattern(fields[m].key, strings), 1 + Offset(fields, 0, m);
    FieldAt(fields, m);
    SoughtMatches(fields[m], Rest(fields, m));
    assert OccursAt(FieldText(fields[m]) + Rest(fields, m), p, 0);
    hide *;
    assert s == s[..at] + s[at..];
    OccursShifted(s[..at], s[at..], p, 0);
  }

  lemma SoughtFound(fields: seq<Field>, m: nat, strings: bool)
    requires ObjectOk(fields) && m < |fields| && Plain(fields[m].key) && (strings ==> fields[m].value.Str?)
    ensures Find(Render(fields), Pattern(fields[m].key, strings), 0) == Some(1 + Offset(fields, 0, m))
  {
    hide *;
    var s, p, at := Render(fields), Pattern(fields[m].key, strings), 1 + Offset(fields, 0, m);
    FieldAt(fields, m);
    SoughtAt(fields, m, strings);
    OthersNotSought(fields, m, strings);
    forall i | 0 <= i < at
      ensures !OccursAt(s, p, i)
    {
      NoEarlierMatch(fields, m, fields[m].key, strings, i);
    }
    FirstIs(s, p, 0, at);
  }

  lemma NothingFound(fields: seq<Field>, key: Text, strings: bool)
    requires ObjectOk(fields) && Plain(key) && NoneSought(fields, 0, |fields|, key, strings)
    ensures Find(Render(fields), Pattern(key, strings), 0) == None
  {
    var s, p, end := Render(fields), Pattern(key, strings), 1 + Offset(fields, 0, |fields|);
    TailFrom(fields, 0, |fields|);
    hide Sought, OccursAt, Pattern, Offset, FieldOk, Find;
    assert |s| == end + 1 && s[end] == '}';
    forall i | 0 <= i <= |s|
      ensures !OccursAt(s, p, i)
    {
      if i < end {
        NoEarlierMatch(fields, |fields|, key, strings, i);
      } else if i == end {
        NoMatchAt(s, i, key, strings);
      } else {
        PatternsAreLong(s, key, strings);
      }
    }
    assert Find(s, p, 0).None?;
  }

  lemma PatternsAreLong(s: Text, key: Text, strings: bool)
    ensures !OccursAt(s, Pattern(key, strings), |s|)
  {
  }

  // ----- What the extraction returns -----

  lemma QuoteAt(s: Text, i: nat)
    ensures OccursAt(s, [QUOTE], i) <==> i < |s| && s[i] == QUOTE
  {
    if i < |s| { assert s[i..i + 1] == [s[i]]; }
  }

  lemma StringPatternLength(key: Text)
    ensures |StringPattern(key)| == 4 + |key|
  {
  }

  lemma TextEnds(f: Field, rest: Text, i: nat)
    requires FieldOk(f) && f.value.Str? && Follows(rest)
    requires 4 + |f.key| <= i <= 4 + |f.key| + |f.value.text|
    ensures OccursAt(FieldText(f) + rest, [QUOTE], i) <==> i == 4 + |f.key| + |f.value.text|
  {
    FieldShape(f, rest);
    QuoteAt(FieldText(f) + rest, i);
    hide FieldText, FieldOk, OccursAt;
  }

  lemma TextIs(f: Field, rest: Text)
    requires FieldOk(f) && f.value.Str? && Follows(rest)
    ensures 4 + |f.key| + |f.value.text| < |FieldText(f)|
    ensures (FieldText(f) + rest)[4 + |f.key|..4 + |f.key| + |f.value.text|] == f.value.text
  {
    FieldShape(f, rest);
  }

  lemma StringBetween(s: Text, key: Text, at: nat, end: nat)
    requires Find(s, StringPattern(key), 0) == Some(at)
    requires at + |StringPattern(key)| <= |s| && Find(s, [QUOTE], at + |StringPattern(key)|) == Some(end)
    ensures JsonGetString(s, key) == s[at + |StringPattern(key)|..end]
  {
    hide Find, StringPattern;
  }

  /** The first quote at or after `offset` is `size` characters further on. */
  ghost predicate EndsAt(u: Text, offset: nat, size: nat)
  {
    forall i :: offset <= i <= offset + size ==> (OccursAt(u, [QUOTE], i) <==> i == offset + size)
  }

  lemma QuoteAfter(head: Text, u: Text, offset: nat, size: nat)
    requires offset + size < |u| && EndsAt(u, offset, size)
    ensures Find(head + u, [QUOTE], |head| + offset) == Some(|head| + offset + size)
  {
    hide Find, OccursAt;
    forall i | |head| + offset <= i <= |head| + offset + size
      ensures OccursAt(head + u, [QUOTE], i) <==> i == |head| + offset + size
    {
      OccursShifted(head, u, [QUOTE], i - |head|);
    }
    FirstIs(head + u, [QUOTE], |head| + offset, |head| + offset + size);
  }

  lemma ExtractString(head: Text, u: Text, offset: nat, size: nat, key: Text)
    requires offset == |StringPattern(key)| && offset + size < |u|
    requires Find(head + u, StringPattern(key), 0) == Some(|head|) && EndsAt(u, offset, size)
    ensures JsonGetString(head + u, key) == u[offset..offset + size]
  {
    hide *;
    QuoteAfter(head, u, offset, size);
    StringBetween(head + u, key, |head|, |head| + offset + size);
    assert (head + u)[|head| + offset..|head| + offset + size] == u[offset..offset + size];
  }

  /** The value of a string field, whatever the other fields hold and wherever it stands. */
  lemma GetStringFinds(fields: seq<Field>, m: nat)
    requires ObjectOk(fields) && m < |fields| && Plain(fields[m].key) && fields[m].value.Str?
    ensures JsonGetString(Render(fields), fields[m].key) == fields[m].value.text
  {
    hide Render, Rest, Offset, FieldText, FieldOk, Find, JsonGetString, StringPattern, OccursAt;
    SoughtFound(fields, m, true);
    FieldAt(fields, m);
    var s, at := Render(fields), 1 + Offset(fields, 0, m);
    assert s == s[..at] + s[at..];
    var f, rest := fields[m], Rest(fields, m);
    forall i | 4 + |f.key| <= i <= 4 + |f.key| + |f.value.text|
      ensures OccursAt(s[at..], [QUOTE], i) <==> i == 4 + |f.key| + |f.value.text|
    {
      TextEnds(f, rest, i);
    }
    TextIs(f, rest);
    StringPatternLength(f.key);
    ExtractString(s[..at], s[at..], 4 + |f.key|, |f.value.text|, f.key);
  }

  lemma ExtractLong(head: Text, u: Text, key: Text)
    requires Find(head + u, LongPattern(key), 0) == Some(|head|) && |LongPattern(key)| <= |u|
    ensures JsonGetLong(head + u, key) == Atoll(u[|LongPattern(key)|..])
  {
    hide Find, LongPattern, Atoll;
    assert (head + u)[|head| + |LongPattern(key)|..] == u[|LongPattern(key)|..];
  }

  lemma NumberIs(f: Field, rest: Text)
    requires f.value.Num?
    ensures |LongPattern(f.key)| <= |FieldText(f)|
    ensures (FieldText(f) + rest)[|LongPattern(f.key)|..] == f.value.digits + rest
  {
    hide LongPattern;
  }

  lemma AtollDigits(d: Text, rest: Text)
    requires Digits(d) && Follows(rest)
    ensures Atoll(d + rest) == DigitsValue(d, 0)
  {
    DigitsStop(d, rest, 0);
    hide DigitsValue;
    assert (d + rest)[0] == d[0] && IsDigit(d[0]);
  }

  lemma GetLongFinds(fields: seq<Field>, m: nat)
    requires ObjectOk(fields) && m < |fields| && Plain(fields[m].key) && fields[m].value.Num?
    ensures JsonGetLong(Render(fields), fields[m].key) == DigitsValue(fields[m].value.digits, 0)
  {
    assert Digits(fields[m].value.digits);
    hide Render, Rest, Offset, FieldText, FieldOk, Find, JsonGetLong, LongPattern, Atoll, DigitsValue, Digits;
    SoughtFound(fields, m, false);
    FieldAt(fields, m);
    var s, at := Render(fields), 1 + Offset(fields, 0, m);
    assert s == s[..at] + s[at..];
    NumberIs(fields[m], Rest(fields, m));
    ExtractLong(s[..at], s[at..], fields[m].key);
    AtollDigits(fields[m].value.digits, Rest(fields, m));
  }

  lemma {:induction false} DigitsStop(d: Text, rest: Text, acc: nat)
    requires Follows(rest) && forall i :: 0 <= i < |d| ==> IsDigit(d[i])
    ensures DigitsValue(d + rest, acc) == DigitsValue(d, acc)
  {
    if d == [] {
      assert d + rest == rest;
    } else {
      assert (d + rest)[1..] == d[1..] + rest;
      DigitsStop(d[1..], rest, 10 * acc + (d[0] as int - '0' as int));
    }
  }

  lemma GetLongMissing(fields: seq<Field>, key: Text)
    requires ObjectOk(fields) && Plain(key) && forall j :: 0 <= j < |fields| ==> fields[j].key != key
    ensures JsonGetLong(Render(fields), key) == -1
  {
    NothingFound(fields, key, false);
  }

  // ----- The decision on a request -----

  predicate NoNul(s: Text)
  {
    forall i :: 0 <= i < |s| ==> s[i] != 0 as char
  }

  lemma {:induction false} UntilNulIsAll(s: Text)
    requires NoNul(s)
    ensures UntilNul(s) == s
  {
    if s != [] {
      assert NoNul(s[1..]);
      UntilNulIsAll(s[1..]);
    }
  }

  lemma FieldNoNul(f: Field)
    requires FieldOk(f)
    ensures NoNul(FieldText(f))
  {
    match f.value
    case Str(t) => assert NoNul([QUOTE] + t + [QUOTE]);
    case Num(d) => assert NoNul(d);
  }

  lemma {:induction false} TailNoNul(fields: seq<Field>, k: nat)
    requires ObjectOk(fields) && k <= |fields|
    ensures NoNul(Tail(fields, k))
    decreases |fields| - k
  {
    if k < |fields| {
      TailNoNul(fields, k + 1);
      FieldNoNul(fields[k]);
      hide FieldText, FieldOk;
    }
  }

  lemma RenderNoNul(fields: seq<Field>)
    requires ObjectOk(fields)
    ensures UntilNul(Render(fields)) == Render(fields)
  {
    TailNoNul(fields, 0);
    hide Tail, ObjectOk;
    assert NoNul(['{']);
    UntilNulIsAll(Render(fields));
  }

  lemma RequestFound(fields: seq<Field>, m: nat)
    requires m < |fields| && fields[m].key == REQUEST
    ensures Find(Render(fields), REQUEST, 0).Some?
  {
    var s, at := Render(fields), 1 + Offset(fields, 0, m);
    FieldAt(fields, m);
    var u := FieldText(fields[m]) + Rest(fields, m);
    assert u[1..1 + |REQUEST|] == REQUEST;
    hide Render, Offset, FieldText, Rest, Find;
    assert s == s[..at] + u;
    OccursShifted(s[..at], u, REQUEST, 1);
  }

  /** A timestamp from 30 seconds ago to 5 seconds ahead, or none: what is not positive counts as none. */
  predicate InWindow(ts: int, now: int) { ts <= 0 || now - 30 <= ts <= now + 5 }

  lemma FreshIs(ts: int, now: int)
    ensures Fresh(ts, now) <==> InWindow(ts, now)
  {
  }

  /** A number as decimal text, most significant digit first. */
  function Decimal(n: nat): (s: Text)
    ensures s != [] && forall i :: 0 <= i < |s| ==> IsDigit(s[i])
  {
    (if n < 10 then [] else Decimal(n / 10)) + ['0' + (n % 10) as char]
  }

  /** What is read of decimal text is the number. */
  lemma {:induction false} DecimalRead(n: nat)
    ensures DigitsValue(Decimal(n), 0) == n
  {
    DigitsAppend(if n < 10 then [] else Decimal(n / 10), '0' + (n % 10) as char, 0);
    if n >= 10 { DecimalRead(n / 10); }
  }

  lemma {:induction false} DigitsAppend(s: Text, c: Char8, acc: nat)
    requires IsDigit(c) && forall i :: 0 <= i < |s| ==> IsDigit(s[i])
    ensures DigitsValue(s + [c], acc) == 10 * DigitsValue(s, acc) + (c as int - '0' as int)
  {
    if s == [] {
      assert s + [c] == [c] && [c][1..] == [];
    } else {
      assert (s + [c])[1..] == s[1..] + [c];
      DigitsAppend(s[1..], c, 10 * acc + (s[0] as int - '0' as int));
    }
  }

  /** The timestamp field, if there is one, is a number in the window. */
  predicate Timely(fields: seq<Field>, now: int)
  {
    forall i :: 0 <= i < |fields| && fields[i].key == "ts" ==>
                  fields[i].value.Num? && InWindow(DigitsValue(fields[i].value.digits, 0), now)
  }

  lemma TimelyIsFresh(fields: seq<Field>, now: int)
    requires ObjectOk(fields) && Timely(fields, now)
    ensures Fresh(JsonGetLong(Render(fields), TS), now)
  {
    hide Render, JsonGetLong, FieldOk, Fresh;
    FreshIs(JsonGetLong(Render(fields), TS), now);
    if i :| 0 <= i < |fields| && fields[i].key == TS {
      GetLongFinds(fields, i);
    } else {
      GetLongMissing(fields, TS);
    }
  }

  lemma StringFieldFound(fields: seq<Field>, key: Text, text: Text)
    requires ObjectOk(fields) && Plain(key) && Field(key, Str(text)) in fields
    ensures JsonGetString(Render(fields), key) == text
  {
    hide JsonGetString, Render, FieldOk;
    var m :| 0 <= m < |fields| && fields[m] == Field(key, Str(text));
    GetStringFinds(fields, m);
  }

  lemma AuthenticateAccepts(password: seq<Byte>, msg: Text, challenge: seq<Byte>)
    requires PasswordOk(password) && |msg| <= RECEIVE_LIMIT && challenge != [] && |challenge| < MESSAGE_LIMIT
    requires JsonGetString(msg, CHALLENGE) == Hex(challenge)
    requires JsonGetString(msg, HMAC) == Hex(Hmac(password, challenge))
    ensures Authenticate(password, msg) == Accepted([])
  {
    UnhexHex(challenge);
    hide JsonGetString, Hmac, Hex, Unhex;
  }

  lemma DecideAccepts(password: seq<Byte>, msg: Text, now: int, salt: Text)
    requires PasswordOk(password) && |msg| <= RECEIVE_LIMIT && UntilNul(msg) == msg && Find(msg, REQUEST, 0).Some?
    requires Authenticate(password, msg) == Accepted([]) && Fresh(JsonGetLong(msg, TS), now)
    requires JsonGetString(msg, SALT) == salt != []
    ensures Decide(password, msg, now) == Accepted(salt)
  {
    hide JsonGetString, JsonGetLong, Authenticate, Find, UntilNul, Fresh;
  }

  lemma KeysArePlain()
    ensures Plain(CHALLENGE) && Plain(HMAC) && Plain(SALT) && Plain(TS)
  {
  }

  /** A request object that fits the receive buffer, in any field order and with any other fields, and
      that shows the HMAC of its own challenge. */
  ghost predicate Genuine(password: seq<Byte>, fields: seq<Field>, challenge: seq<Byte>, salt: Text)
  {
    && PasswordOk(password) && ObjectOk(fields) && |Render(fields)| <= RECEIVE_LIMIT
    && challenge != [] && |challenge| < MESSAGE_LIMIT && salt != []
    && (exists m :: 0 <= m < |fields| && fields[m].key == "request")
    && Field("challenge", Str(Hex(challenge))) in fields
    && Field("hmac", Str(Hex(Hmac(password, challenge)))) in fields
    && Field("salt", Str(salt)) in fields
  }

  lemma GenuineAuthenticates(password: seq<Byte>, fields: seq<Field>, challenge: seq<Byte>, salt: Text)
    requires Genuine(password, fields, challenge, salt)
    ensures Authenticate(password, Render(fields)) == Accepted([])
  {
    hide Render, ObjectOk, JsonGetString, Hmac, Hex, Authenticate, Plain;
    KeysArePlain();
    StringFieldFound(fields, CHALLENGE, Hex(challenge));
    StringFieldFound(fields, HMAC, Hex(Hmac(password, challenge)));
    AuthenticateAccepts(password, Render(fields), challenge);
  }

  lemma GenuineHasSalt(password: seq<Byte>, fields: seq<Field>, challenge: seq<Byte>, salt: Text)
    requires Genuine(password, fields, challenge, salt)
    ensures Find(Render(fields), REQUEST, 0).Some? && JsonGetString(Render(fields), SALT) == salt != []
  {
    hide Render, ObjectOk, JsonGetString, Hmac, Hex, Find, Plain;
    KeysArePlain();
    StringFieldFound(fields, SALT, salt);
    var m :| 0 <= m < |fields| && fields[m].key == REQUEST;
    RequestFound(fields, m);
  }

  /** Completeness: a genuine and timely request is accepted. */
  lemma GenuineRequestAccepted(password: seq<Byte>, fields: seq<Field>, now: int, challenge: seq<Byte>, salt: Text)
    requires Genuine(password, fields, challenge, salt) && Timely(fields, now)
    ensures PasswordOk(password) && |Render(fields)| <= RECEIVE_LIMIT
    ensures Decide(password, Render(fields), now) == Accepted(salt)
  {
    GenuineAuthenticates(password, fields, challenge, salt);
    GenuineHasSalt(password, fields, challenge, salt);
    RenderNoNul(fields);
    TimelyIsFresh(fields, now);
    assert PasswordOk(password) && |Render(fields)| <= RECEIVE_LIMIT;
    hide *;
    DecideAccepts(password, Render(fields), now, salt);
  }

  /** Soundness, for every received buffer: with a password set, whatever is accepted carries the HMAC
      of the challenge it carries, a salt, and no timestamp outside the window. */
  lemma AcceptedIsAuthentic(password: seq<Byte>, buf: Text, now: int, salt: Text)
    requires PasswordOk(password) && |buf| <= RECEIVE_LIMIT && password != []
    requires Decide(password, buf, now) == Accepted(salt)
    ensures var msg := UntilNul(buf);
            var hex := JsonGetString(msg, CHALLENGE);
            && IsHex(hex) && hex != [] && |HexValue(hex)| < MESSAGE_LIMIT
            && JsonGetString(msg, HMAC) == Hex(Hmac(password, HexValue(hex)))
            && salt == JsonGetString(msg, SALT) != [] && InWindow(JsonGetLong(msg, TS), now)
  {
    hide JsonGetString, JsonGetLong, Hmac, Hex, Find, UntilNul, Fresh;
    FreshIs(JsonGetLong(UntilNul(buf), TS), now);
    UntilNulShrinks(buf);
    ExtractShrinks(UntilNul(buf), CHALLENGE);
  }

  // ----- Exactly which flat requests are accepted -----

  /** A string field and the text extracted for its key determine each other; without the field the text is
      empty. */
  lemma StringField(fields: seq<Field>, key: Text)
    requires ObjectOk(fields) && Plain(key)
    ensures var t := JsonGetString(Render(fields), key); t == [] || Field(key, Str(t)) in fields
    ensures forall t :: Field(key, Str(t)) in fields ==> t == JsonGetString(Render(fields), key)
  {
    hide JsonGetString, Render, FieldOk, Plain;
    forall t | Field(key, Str(t)) in fields ensures t == JsonGetString(Render(fields), key) {
      StringFieldFound(fields, key, t);
    }
    if m :| 0 <= m < |fields| && Sought(fields[m], key, true) {
      assert fields[m] == Field(key, Str(fields[m].value.text));
      StringFieldFound(fields, key, fields[m].value.text);
    } else {
      StringMissing(fields, key);
    }
  }

  lemma StringMissing(fields: seq<Field>, key: Text)
    requires ObjectOk(fields) && Plain(key) && NoneSought(fields, 0, |fields|, key, true)
    ensures JsonGetString(Render(fields), key) == []
  {
    hide Render, FieldOk, Find, Sought;
    NothingFound(fields, key, true);
  }

  /** A number in the timestamp field lies in the window. */
  predicate TimestampFine(fields: seq<Field>, now: int)
  {
    forall i :: 0 <= i < |fields| && fields[i].key == "ts" && fields[i].value.Num? ==>
                  InWindow(DigitsValue(fields[i].value.digits, 0), now)
  }

  lemma TimestampDecides(fields: seq<Field>, now: int)
    requires ObjectOk(fields)
    ensures Fresh(JsonGetLong(Render(fields), TS), now) <==> TimestampFine(fields, now)
  {
    KeysArePlain();
    hide Render, JsonGetLong, FieldOk, DigitsValue, Fresh;
    FreshIs(JsonGetLong(Render(fields), TS), now);
    if i :| 0 <= i < |fields| && fields[i].key == TS {
      assert forall j :: 0 <= j < |fields| && fields[j].key == TS ==> j == i;
      if fields[i].value.Num? {
        GetLongFinds(fields, i);
      } else {
        TextIsZero(fields, i);
        ZeroIsFresh(now);
      }
    } else {
      GetLongMissing(fields, TS);
      ZeroIsFresh(now);
    }
  }

  lemma ZeroIsFresh(now: int)
    ensures Fresh(0, now) && Fresh(-1, now)
  {
  }

  /** Text where a number is looked for reads as 0. */
  lemma TextIsZero(fields: seq<Field>, m: nat)
    requires ObjectOk(fields) && m < |fields| && Plain(fields[m].key) && fields[m].value.Str?
    ensures JsonGetLong(Render(fields), fields[m].key) == 0
  {
    hide Render, Rest, Offset, FieldOk, Find, JsonGetLong, Atoll, FieldText;
    SoughtFound(fields, m, false);
    FieldAt(fields, m);
    var s, at := Render(fields), 1 + Offset(fields, 0, m);
    assert s == s[..at] + s[at..];
    var (f, rest) := (fields[m], Rest(fields, m));
    TextAfterPattern(f, rest);
    ExtractLong(s[..at], s[at..], f.key);
    AtollQuote((FieldText(f) + rest)[|LongPattern(f.key)|..]);
  }

  lemma TextAfterPattern(f: Field, rest: Text)
    requires f.value.Str?
    ensures |LongPattern(f.key)| < |FieldText(f)|
    ensures (FieldText(f) + rest)[|LongPattern(f.key)|] == QUOTE
  {
  }

  lemma AtollQuote(s: Text)
    requires s != [] && s[0] == QUOTE
    ensures Atoll(s) == 0
  {
  }

  /** The request shows that its sender knows the password: the fields hold a challenge, its HMAC, a salt and no
      number outside the window. */
  ghost predicate Shows(password: seq<Byte>, fields: seq<Field>, now: int, challenge: Text, salt: Text)
    requires PasswordOk(password)
  {
    && IsHex(challenge) && challenge != [] && |HexValue(challenge)| < MESSAGE_LIMIT && salt != []
    && Field("challenge", Str(challenge)) in fields
    && Field("hmac", Str(Hex(Hmac(password, HexValue(challenge))))) in fields
    && Field("salt", Str(salt)) in fields
    && TimestampFine(fields, now)
  }

  /** With a password set, a flat request that fits the receive buffer is accepted exactly when its fields show
      that the password is known. */
  lemma FlatRequestDecided(password: seq<Byte>, fields: seq<Field>, now: int, salt: Text)
    requires PasswordOk(password) && password != [] && ObjectOk(fields) && |Render(fields)| <= RECEIVE_LIMIT
    requires exists m :: 0 <= m < |fields| && fields[m].key == "request"
    ensures Decide(password, Render(fields), now) == Accepted(salt)
       <==> exists challenge :: Shows(password, fields, now, challenge, salt)
  {
    hide Render, ObjectOk, JsonGetString, JsonGetLong, Hmac, Hex, Find, Plain, TimestampFine, Fresh, Decide, IsHex, HexValue;
    KeysArePlain();
    RenderNoNul(fields);
    StringField(fields, CHALLENGE);
    StringField(fields, HMAC);
    StringField(fields, SALT);
    TimestampDecides(fields, now);
    var m :| 0 <= m < |fields| && fields[m].key == REQUEST;
    RequestFound(fields, m);
    var msg := Render(fields);
    if Decide(password, msg, now) == Accepted(salt) {
      AcceptedIsAuthentic(password, msg, now, salt);
      FreshIs(JsonGetLong(msg, TS), now);
      HexNotEmpty(Hmac(password, HexValue(JsonGetString(msg, CHALLENGE))));
      assert Shows(password, fields, now, JsonGetString(msg, CHALLENGE), salt);
    }
    if challenge :| Shows(password, fields, now, challenge, salt) {
      ShownAccepts(password, msg, now, challenge, salt);
    }
  }

  lemma HexNotEmpty(b: seq<Byte>)
    requires b != []
    ensures Hex(b) != []
  {
  }

  lemma ShownAccepts(password: seq<Byte>, msg: Text, now: int, challenge: Text, salt: Text)
    requires PasswordOk(password) && password != [] && |msg| <= RECEIVE_LIMIT && UntilNul(msg) == msg && Find(msg, REQUEST, 0).Some?
    requires IsHex(challenge) && challenge != [] && |HexValue(challenge)| < MESSAGE_LIMIT
    requires JsonGetString(msg, CHALLENGE) == challenge && JsonGetString(msg, SALT) == salt != []
    requires JsonGetString(msg, HMAC) == Hex(Hmac(password, HexValue(challenge))) && Fresh(JsonGetLong(msg, TS), now)
    ensures Decide(password, msg, now) == Accepted(salt)
  {
    hide JsonGetString, JsonGetLong, Hmac, Hex, Find, UntilNul, Fresh;
    HexNotEmpty(Hmac(password, HexValue(challenge)));
  }

  /** The HMAC covers the challenge and nothing else: with the challenge and the HMAC of an accepted request, a
      request is accepted whatever its salt, its other fields and its timestamp, as long as there is a salt and
      the timestamp is missing or in the window. */
  lemma OtherFieldsFree(password: seq<Byte>, fields: seq<Field>, now: int, salt: Text,
                        others: seq<Field>, later: int, otherSalt: Text)
    requires PasswordOk(password) && password != []
    requires ObjectOk(fields) && |Render(fields)| <= RECEIVE_LIMIT && exists m :: 0 <= m < |fields| && fields[m].key == "request"
    requires ObjectOk(others) && |Render(others)| <= RECEIVE_LIMIT && exists m :: 0 <= m < |others| && others[m].key == "request"
    requires Decide(password, Render(fields), now) == Accepted(salt)
    requires forall f :: f in fields && (f.key == "challenge" || f.key == "hmac") ==> f in others
    requires otherSalt != [] && Field("salt", Str(otherSalt)) in others && TimestampFine(others, later)
    ensures Decide(password, Render(others), later) == Accepted(otherSalt)
  {
    hide Render, ObjectOk, Hmac, Hex, TimestampFine, Decide, IsHex, HexValue;
    FlatRequestDecided(password, fields, now, salt);
    FlatRequestDecided(password, others, later, otherSalt);
    var challenge :| Shows(password, fields, now, challenge, salt);
    assert Shows(password, others, later, challenge, otherSalt);
  }
}
