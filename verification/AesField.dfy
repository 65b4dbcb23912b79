/** The field GF(2^8) of AES and columns over it (section 4 of FIPS 197). */
module AesField {

  function Add(a: bv8, b: bv8): bv8 { a ^ b }

  function Add3(a: bv8, b: bv8, c: bv8): bv8 { Add(Add(a, b), c) }

  function Add4(a: bv8, b: bv8, c: bv8, d: bv8): bv8 { Add(Add(Add(a, b), c), d) }

  /** Multiplication by x: gf2_8_shift. */
  function XTime(a: bv8): bv8
  {
    if a & 0x80 != 0 then (a << 1) ^ 0x1B else a << 1
  }

  function X2(a: bv8): bv8 { XTime(XTime(a)) }

  function X3(a: bv8): bv8 { XTime(XTime(XTime(a))) }

  /** Multiples by the coefficients of MixColumns and its inverse. */
  function M2(a: bv8): bv8 { XTime(a) }
  function M3(a: bv8): bv8 { Add(XTime(a), a) }
  function M9(a: bv8): bv8 { Add(X3(a), a) }
  function M11(a: bv8): bv8 { Add3(X3(a), XTime(a), a) }
  function M13(a: bv8): bv8 { Add3(X3(a), X2(a), a) }
  function M14(a: bv8): bv8 { Add3(X3(a), X2(a), XTime(a)) }

  // ----- Linearity -----

  lemma AddSwaps(a: bv8, b: bv8)
    ensures Add(a, b) == Add(b, a)
  {
  }

  lemma AddGroups(a: bv8, b: bv8, c: bv8)
    ensures Add(Add(a, b), c) == Add(a, Add(b, c))
  {
  }

  lemma AddSelf(a: bv8)
    ensures Add(a, a) == 0
  {
  }

  lemma AddZero(a: bv8)
    ensures Add(a, 0) == a && Add(0, a) == a
  {
  }

  lemma ShiftAdds(a: bv8, b: bv8)
    ensures (a ^ b) << 1 == (a << 1) ^ (b << 1)
  {
  }

  lemma TopBitAdds(a: bv8, b: bv8)
    ensures (a ^ b) & 0x80 == (a & 0x80) ^ (b & 0x80)
  {
  }

  lemma TopBit(a: bv8)
    ensures a & 0x80 == 0 || a & 0x80 == 0x80
  {
  }

  lemma XTimeAdds(a: bv8, b: bv8)
    ensures XTime(Add(a, b)) == Add(XTime(a), XTime(b))
  {
    ShiftAdds(a, b);
    TopBitAdds(a, b);
    TopBit(a);
    TopBit(b);
  }

  lemma PowersAdd(a: bv8, b: bv8)
    ensures XTime(Add(a, b)) == Add(XTime(a), XTime(b)) && X2(Add(a, b)) == Add(X2(a), X2(b))
    ensures X3(Add(a, b)) == Add(X3(a), X3(b))
  {
    hide XTime, Add;
    XTimeAdds(a, b);
    XTimeAdds(XTime(a), XTime(b));
    XTimeAdds(XTime(XTime(a)), XTime(XTime(b)));
  }

  lemma Swap(a: bv8, b: bv8, c: bv8, d: bv8)
    ensures Add(Add(a, b), Add(c, d)) == Add(Add(a, c), Add(b, d))
  {
    hide Add;
    AddGroups(Add(a, b), c, d);
    AddGroups(a, b, c);
    AddSwaps(b, c);
    AddGroups(a, c, b);
    AddGroups(Add(a, c), b, d);
  }

  lemma SwapThree(a: bv8, b: bv8, c: bv8, d: bv8, e: bv8, f: bv8)
    ensures Add3(Add(a, b), Add(c, d), Add(e, f)) == Add(Add3(a, c, e), Add3(b, d, f))
  {
    hide Add;
    Swap(a, b, c, d);
    Swap(Add(a, c), Add(b, d), e, f);
  }

  lemma MultiplesAdd(a: bv8, b: bv8)
    ensures M2(Add(a, b)) == Add(M2(a), M2(b)) && M3(Add(a, b)) == Add(M3(a), M3(b))
    ensures M9(Add(a, b)) == Add(M9(a), M9(b)) && M11(Add(a, b)) == Add(M11(a), M11(b))
    ensures M13(Add(a, b)) == Add(M13(a), M13(b)) && M14(Add(a, b)) == Add(M14(a), M14(b))
  {
    hide XTime, X2, X3, Add, Add3;
    PowersAdd(a, b);
    Swap(XTime(a), XTime(b), a, b);
    Swap(X3(a), X3(b), a, b);
    SwapThree(X3(a), X3(b), XTime(a), XTime(b), a, b);
    SwapThree(X3(a), X3(b), X2(a), X2(b), a, b);
    SwapThree(X3(a), X3(b), X2(a), X2(b), XTime(a), XTime(b));
  }

  // ----- Rows -----

  /** The first row of MixColumns, and of its inverse; the others are the same of the column turned. */
  function MixRow(a: bv8, b: bv8, c: bv8, d: bv8): bv8 { Add4(M2(a), M3(b), c, d) }

  function InvRow(a: bv8, b: bv8, c: bv8, d: bv8): bv8 { Add4(M14(a), M11(b), M13(c), M9(d)) }

  lemma SwapFour(a: bv8, b: bv8, c: bv8, d: bv8, e: bv8, f: bv8, g: bv8, h: bv8)
    ensures Add4(Add(a, b), Add(c, d), Add(e, f), Add(g, h)) == Add(Add4(a, c, e, g), Add4(b, d, f, h))
  {
    hide Add;
    SwapThree(a, b, c, d, e, f);
    Swap(Add3(a, c, e), Add3(b, d, f), g, h);
  }

  lemma InvRowAdds(a: bv8, b: bv8, c: bv8, d: bv8, e: bv8, f: bv8, g: bv8, h: bv8)
    ensures InvRow(Add(a, e), Add(b, f), Add(c, g), Add(d, h)) == Add(InvRow(a, b, c, d), InvRow(e, f, g, h))
  {
    hide M9, M11, M13, M14, Add, Add4;
    MultiplesAdd(a, e);
    MultiplesAdd(b, f);
    MultiplesAdd(c, g);
    MultiplesAdd(d, h);
    SwapFour(M14(a), M14(e), M11(b), M11(f), M13(c), M13(g), M9(d), M9(h));
  }

  /** What one octet contributes to the rows of the inverse of the mixed column. */
  lemma Products(a: bv8)
    ensures M14(M2(a)) == Add3(X3(XTime(a)), X3(a), X2(a))
    ensures M11(M2(a)) == Add3(X3(XTime(a)), X2(a), XTime(a))
    ensures M13(M2(a)) == Add3(X3(XTime(a)), X3(a), XTime(a))
    ensures M9(M2(a)) == Add(X3(XTime(a)), XTime(a))
  {
    hide XTime, Add, Add3;
  }

  lemma MoreProducts(a: bv8)
    ensures M14(M3(a)) == Add(M14(M2(a)), M14(a)) && M11(M3(a)) == Add(M11(M2(a)), M11(a))
    ensures M13(M3(a)) == Add(M13(M2(a)), M13(a)) && M9(M3(a)) == Add(M9(M2(a)), M9(a))
  {
    hide XTime, Add, M14, M11, M13, M9;
    MultiplesAdd(XTime(a), a);
  }

  // Sums of chosen ones of five octets

  datatype Pick = Yes | No

  datatype Choice = Choice(e: Pick, d: Pick, c: Pick, b: Pick, a: Pick)

  function Differ(p: Pick, q: Pick): Pick { if p == q then No else Yes }

  function Join(m: Choice, n: Choice): Choice
  {
    Choice(Differ(m.e, n.e), Differ(m.d, n.d), Differ(m.c, n.c), Differ(m.b, n.b), Differ(m.a, n.a))
  }

  function Picked(p: Pick, x: bv8): bv8 { if p == Yes then x else 0 }

  function Chosen(m: Choice, e: bv8, d: bv8, c: bv8, b: bv8, a: bv8): bv8
  {
    Add(Add4(Picked(m.e, e), Picked(m.d, d), Picked(m.c, c), Picked(m.b, b)), Picked(m.a, a))
  }

  lemma PicksAdd(p: Pick, q: Pick, x: bv8)
    ensures Add(Picked(p, x), Picked(q, x)) == Picked(Differ(p, q), x)
  {
    hide Add;
    AddSelf(x);
    AddZero(x);
    AddZero(0);
  }

  /** What is chosen twice cancels. */
  lemma ChosenAdd(m: Choice, n: Choice, e: bv8, d: bv8, c: bv8, b: bv8, a: bv8)
    ensures Add(Chosen(m, e, d, c, b, a), Chosen(n, e, d, c, b, a)) == Chosen(Join(m, n), e, d, c, b, a)
  {
    hide Add, Add4, Picked, Differ;
    PicksAdd(m.e, n.e, e);
    PicksAdd(m.d, n.d, d);
    PicksAdd(m.c, n.c, c);
    PicksAdd(m.b, n.b, b);
    PicksAdd(m.a, n.a, a);
    SwapFour(Picked(m.e, e), Picked(n.e, e), Picked(m.d, d), Picked(n.d, d),
             Picked(m.c, c), Picked(n.c, c), Picked(m.b, b), Picked(n.b, b));
    Swap(Add4(Picked(m.e, e), Picked(m.d, d), Picked(m.c, c), Picked(m.b, b)), Picked(m.a, a),
         Add4(Picked(n.e, e), Picked(n.d, d), Picked(n.c, c), Picked(n.b, b)), Picked(n.a, a));
  }

  lemma OneChosen(e: bv8, d: bv8, c: bv8, b: bv8, a: bv8)
    ensures Chosen(Choice(Yes, No, No, No, No), e, d, c, b, a) == e
    ensures Chosen(Choice(No, Yes, No, No, No), e, d, c, b, a) == d
    ensures Chosen(Choice(No, No, Yes, No, No), e, d, c, b, a) == c
    ensures Chosen(Choice(No, No, No, Yes, No), e, d, c, b, a) == b
    ensures Chosen(Choice(No, No, No, No, Yes), e, d, c, b, a) == a
    ensures Chosen(Choice(No, No, No, No, No), e, d, c, b, a) == 0
  {
    hide Add;
    AddZero(e);
    AddZero(d);
    AddZero(c);
    AddZero(b);
    AddZero(a);
    AddZero(0);
  }

  /** Sums written out, what they are worth, and which octets are left once pairs cancel. */
  datatype Sum = E | D | C | B | A | Plus(left: Sum, right: Sum)

  function Value(s: Sum, e: bv8, d: bv8, c: bv8, b: bv8, a: bv8): bv8
  {
    match s
    case E => e
    case D => d
    case C => c
    case B => b
    case A => a
    case Plus(l, r) => Add(Value(l, e, d, c, b, a), Value(r, e, d, c, b, a))
  }

  function Left(s: Sum): Choice
  {
    match s
    case E => Choice(Yes, No, No, No, No)
    case D => Choice(No, Yes, No, No, No)
    case C => Choice(No, No, Yes, No, No)
    case B => Choice(No, No, No, Yes, No)
    case A => Choice(No, No, No, No, Yes)
    case Plus(l, r) => Join(Left(l), Left(r))
  }

  lemma {:induction false} ValueOfLeft(s: Sum, e: bv8, d: bv8, c: bv8, b: bv8, a: bv8)
    ensures Value(s, e, d, c, b, a) == Chosen(Left(s), e, d, c, b, a)
  {
    hide Add, Chosen, Join;
    if s.Plus? {
      ValueOfLeft(s.left, e, d, c, b, a);
      ValueOfLeft(s.right, e, d, c, b, a);
      ChosenAdd(Left(s.left), Left(s.right), e, d, c, b, a);
    } else {
      OneChosen(e, d, c, b, a);
    }
  }

  function Plus3(p: Sum, q: Sum, r: Sum): Sum { Plus(Plus(p, q), r) }

  function Plus4(p: Sum, q: Sum, r: Sum, s: Sum): Sum { Plus(Plus(Plus(p, q), r), s) }

  lemma ValueOfPlus(p: Sum, q: Sum, e: bv8, d: bv8, c: bv8, b: bv8, a: bv8)
    ensures Value(Plus(p, q), e, d, c, b, a) == Add(Value(p, e, d, c, b, a), Value(q, e, d, c, b, a))
  {
  }

  lemma ValueOfPlus3(p: Sum, q: Sum, r: Sum, e: bv8, d: bv8, c: bv8, b: bv8, a: bv8)
    ensures Value(Plus3(p, q, r), e, d, c, b, a)
         == Add3(Value(p, e, d, c, b, a), Value(q, e, d, c, b, a), Value(r, e, d, c, b, a))
  {
    hide Add;
  }

  lemma ValueOfPlus4(p: Sum, q: Sum, r: Sum, s: Sum, e: bv8, d: bv8, c: bv8, b: bv8, a: bv8)
    ensures Value(Plus4(p, q, r, s), e, d, c, b, a)
         == Add4(Value(p, e, d, c, b, a), Value(q, e, d, c, b, a), Value(r, e, d, c, b, a), Value(s, e, d, c, b, a))
  {
    hide Add, Value;
    ValueOfPlus(Plus(Plus(p, q), r), s, e, d, c, b, a);
    ValueOfPlus(Plus(p, q), r, e, d, c, b, a);
    ValueOfPlus(p, q, e, d, c, b, a);
  }

  lemma CancelOne(e: bv8, d: bv8, c: bv8, b: bv8, a: bv8)
    ensures Add4(Add3(e, d, c), Add3(d, b, a), Add3(d, c, a), Add(Add(e, b), Add(d, a))) == a
  {
    hide Add, Add3, Add4, Chosen;
    var (p, q, r, s) := (Plus3(E, D, C), Plus3(D, B, A), Plus3(D, C, A), Plus(Plus(E, B), Plus(D, A)));
    ValueOfPlus3(E, D, C, e, d, c, b, a);
    ValueOfPlus3(D, B, A, e, d, c, b, a);
    ValueOfPlus3(D, C, A, e, d, c, b, a);
    ValueOfPlus(E, B, e, d, c, b, a);
    ValueOfPlus(D, A, e, d, c, b, a);
    ValueOfPlus(Plus(E, B), Plus(D, A), e, d, c, b, a);
    ValueOfPlus4(p, q, r, s, e, d, c, b, a);
    ValueOfLeft(Plus4(p, q, r, s), e, d, c, b, a);
    assert Left(Plus4(p, q, r, s)) == Choice(No, No, No, No, Yes);
    OneChosen(e, d, c, b, a);
  }

  lemma CancelTwo(e: bv8, d: bv8, c: bv8, b: bv8, a: bv8)
    ensures Add4(Add(Add3(e, d, c), Add3(d, c, b)), Add3(e, c, b), Add3(d, c, a), Add(d, a)) == 0
  {
    hide Add, Add3, Add4, Chosen;
    var (p, q, r, s) := (Plus(Plus3(E, D, C), Plus3(D, C, B)), Plus3(E, C, B), Plus3(D, C, A), Plus(D, A));
    ValueOfPlus3(E, D, C, e, d, c, b, a);
    ValueOfPlus3(D, C, B, e, d, c, b, a);
    ValueOfPlus(Plus3(E, D, C), Plus3(D, C, B), e, d, c, b, a);
    ValueOfPlus3(E, C, B, e, d, c, b, a);
    ValueOfPlus3(D, C, A, e, d, c, b, a);
    ValueOfPlus(D, A, e, d, c, b, a);
    ValueOfPlus4(p, q, r, s, e, d, c, b, a);
    ValueOfLeft(Plus4(p, q, r, s), e, d, c, b, a);
    assert Left(Plus4(p, q, r, s)) == Choice(No, No, No, No, No);
    OneChosen(e, d, c, b, a);
  }

  lemma CancelThree(e: bv8, d: bv8, c: bv8, b: bv8, a: bv8)
    ensures Add4(Add3(d, c, b), Add(Add3(e, c, b), Add3(d, b, a)), Add3(e, d, b), Add(d, a)) == 0
  {
    hide Add, Add3, Add4, Chosen;
    var (p, q, r, s) := (Plus3(D, C, B), Plus(Plus3(E, C, B), Plus3(D, B, A)), Plus3(E, D, B), Plus(D, A));
    ValueOfPlus3(D, C, B, e, d, c, b, a);
    ValueOfPlus3(E, C, B, e, d, c, b, a);
    ValueOfPlus3(D, B, A, e, d, c, b, a);
    ValueOfPlus(Plus3(E, C, B), Plus3(D, B, A), e, d, c, b, a);
    ValueOfPlus3(E, D, B, e, d, c, b, a);
    ValueOfPlus(D, A, e, d, c, b, a);
    ValueOfPlus4(p, q, r, s, e, d, c, b, a);
    ValueOfLeft(Plus4(p, q, r, s), e, d, c, b, a);
    assert Left(Plus4(p, q, r, s)) == Choice(No, No, No, No, No);
    OneChosen(e, d, c, b, a);
  }

  lemma CancelFour(e: bv8, d: bv8, c: bv8, b: bv8, a: bv8)
    ensures Add4(Add3(d, c, b), Add3(d, b, a), Add(Add3(e, d, b), Add3(d, c, a)), Add(e, b)) == 0
  {
    hide Add, Add3, Add4, Chosen;
    var (p, q, r, s) := (Plus3(D, C, B), Plus3(D, B, A), Plus(Plus3(E, D, B), Plus3(D, C, A)), Plus(E, B));
    ValueOfPlus3(D, C, B, e, d, c, b, a);
    ValueOfPlus3(D, B, A, e, d, c, b, a);
    ValueOfPlus3(E, D, B, e, d, c, b, a);
    ValueOfPlus3(D, C, A, e, d, c, b, a);
    ValueOfPlus(Plus3(E, D, B), Plus3(D, C, A), e, d, c, b, a);
    ValueOfPlus(E, B, e, d, c, b, a);
    ValueOfPlus4(p, q, r, s, e, d, c, b, a);
    ValueOfLeft(Plus4(p, q, r, s), e, d, c, b, a);
    assert Left(Plus4(p, q, r, s)) == Choice(No, No, No, No, No);
    OneChosen(e, d, c, b, a);
  }

  lemma Contributions(a: bv8)
    ensures InvRow(M2(a), a, a, M3(a)) == a
    ensures InvRow(M3(a), M2(a), a, a) == 0
    ensures InvRow(a, M3(a), M2(a), a) == 0
    ensures InvRow(a, a, M3(a), M2(a)) == 0
  {
    Products(a);
    MoreProducts(a);
    hide XTime, X2, X3, M2, M3, Add, Add3, Add4;
    var (e, d, c, b) := (X3(XTime(a)), X3(a), X2(a), XTime(a));
    CancelOne(e, d, c, b, a);
    CancelTwo(e, d, c, b, a);
    CancelThree(e, d, c, b, a);
    CancelFour(e, d, c, b, a);
  }

  lemma AddZeros(a: bv8)
    ensures Add(Add(Add(a, 0), 0), 0) == a
  {
    hide Add;
    AddZero(a);
  }

  /** The rows of a mixed column, contribution by contribution. */
  lemma Turns(a: bv8, b: bv8, c: bv8, d: bv8)
    ensures MixRow(a, b, c, d) == Add(Add(Add(M2(a), M3(b)), c), d)
    ensures MixRow(b, c, d, a) == Add(Add(Add(a, M2(b)), M3(c)), d)
    ensures MixRow(c, d, a, b) == Add(Add(Add(a, b), M2(c)), M3(d))
    ensures MixRow(d, a, b, c) == Add(Add(Add(M3(a), b), c), M2(d))
  {
    hide M2, M3, Add, Add4;
    Nest(M2(a), M3(b), c, d);
    Rotate(M2(b), M3(c), d, a);
    Rotate(M3(c), d, a, M2(b));
    Rotate(d, a, M2(b), M3(c));
    Nest(a, M2(b), M3(c), d);
    Rotate(M2(c), M3(d), a, b);
    Rotate(M3(d), a, b, M2(c));
    Nest(a, b, M2(c), M3(d));
    Rotate(M2(d), M3(a), b, c);
    Nest(M3(a), b, c, M2(d));
  }

  lemma Nest(a: bv8, b: bv8, c: bv8, d: bv8)
    ensures Add4(a, b, c, d) == Add(Add(Add(a, b), c), d)
  {
  }

  lemma Rotate(a: bv8, b: bv8, c: bv8, d: bv8)
    ensures Add4(a, b, c, d) == Add4(b, c, d, a)
  {
    hide Add;
    AddGroups(a, b, c);
    AddGroups(a, Add(b, c), d);
    AddSwaps(a, Add(Add(b, c), d));
  }

  /** The inverse row over the mixed column gives back the first octet. */
  lemma InvRowMixed(a: bv8, b: bv8, c: bv8, d: bv8)
    ensures InvRow(MixRow(a, b, c, d), MixRow(b, c, d, a), MixRow(c, d, a, b), MixRow(d, a, b, c)) == a
  {
    hide M2, M3, InvRow, MixRow, Add;
    Contributions(a);
    Contributions(b);
    Contributions(c);
    Contributions(d);
    Turns(a, b, c, d);
    InvRowAdds(M2(a), a, a, M3(a), M3(b), M2(b), b, b);
    InvRowAdds(Add(M2(a), M3(b)), Add(a, M2(b)), Add(a, b), Add(M3(a), b), c, M3(c), M2(c), c);
    InvRowAdds(Add(Add(M2(a), M3(b)), c), Add(Add(a, M2(b)), M3(c)), Add(Add(a, b), M2(c)), Add(Add(M3(a), b), c), d, d, M3(d), M2(d));
    AddZeros(a);
  }
}
