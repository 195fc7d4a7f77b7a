/**
 The availability cache key (apps/api/src/hotel-search/cache-keys.ts): canonical lists, then JSON text.
 Strings are sequences of UTF-16 code units, lone surrogates included.
 */
module AvailabilityKey {
  import opened DecimalText
  import opened Sequences
  import opened Sorting
  import opened Text
  import opened Wrappers

  /** A JavaScript string: code units 0 to 0xffff. */
  type Units = seq<int>

  predicate IsText(s: Units) {
    forall i :: 0 <= i < |s| ==> 0 <= s[i] < 0x10000
  }

  // ---------------------------------------------------------------------------
  // JSON.stringify of strings, integers and arrays

  datatype Json = JString(text: Units) | JNumber(number: int) | JArray(items: JsonList)

  datatype JsonList = Nil | Cons(head: Json, tail: JsonList)

  const QUOTE := 0x22
  const BACKSLASH := 0x5c
  const OPEN := 0x5b
  const CLOSE := 0x5d
  const COMMA := 0x2c
  const MINUS := 0x2d
  const LETTER_U := 0x75

  predicate HighSurrogate(u: int) {
    0xd800 <= u < 0xdc00
  }

  predicate LowSurrogate(u: int) {
    0xdc00 <= u < 0xe000
  }

  function HexDigit(d: int): int {
    if d < 10 then 0x30 + d else 0x61 + d - 10
  }

  function HexValue(u: int): int {
    if u < 0x3a then u - 0x30 else u - 0x61 + 10
  }

  /** The letter of a two-character escape. */
  function ShortEscape(u: int): Option<int> {
    if u == QUOTE || u == BACKSLASH then Some(u)
    else if u == 0x08 then Some(0x62)
    else if u == 0x09 then Some(0x74)
    else if u == 0x0a then Some(0x6e)
    else if u == 0x0c then Some(0x66)
    else if u == 0x0d then Some(0x72)
    else None
  }

  function Unescaped(letter: int): int {
    if letter == 0x62 then 0x08
    else if letter == 0x74 then 0x09
    else if letter == 0x6e then 0x0a
    else if letter == 0x66 then 0x0c
    else if letter == 0x72 then 0x0d
    else letter
  }

  /** One code unit that is not half of a pair: escaped if it is special, a control, or a lone surrogate. */
  function UnitText(u: int): Units {
    if ShortEscape(u).Some? then [BACKSLASH, ShortEscape(u).value]
    else if u < 0x20 || 0xd800 <= u < 0xe000 then
      [BACKSLASH, LETTER_U, HexDigit(u / 4096), HexDigit(u / 256 % 16), HexDigit(u / 16 % 16), HexDigit(u % 16)]
    else [u]
  }

  /** The characters between the quotes. */
  function Escaped(s: Units): Units {
    if s == [] then []
    else if |s| > 1 && HighSurrogate(s[0]) && LowSurrogate(s[1]) then [s[0]] + ([s[1]] + Escaped(s[2..]))
    else UnitText(s[0]) + Escaped(s[1..])
  }

  function Codes(s: string): Units {
    seq(|s|, i requires 0 <= i < |s| => s[i] as int)
  }

  function NumberText(n: int): Units {
    if n < 0 then [MINUS] + Codes(DigitsOf(-n)) else Codes(DigitsOf(n))
  }

  function Stringify(v: Json): Units
    decreases v, 0
  {
    match v
    case JString(text) => [QUOTE] + (Escaped(text) + [QUOTE])
    case JNumber(n) => NumberText(n)
    case JArray(Nil) => [OPEN, CLOSE]
    case JArray(Cons(head, tail)) => [OPEN] + (Stringify(head) + Rest(tail))
  }

  /** The items after the first, and the closing bracket. */
  function Rest(items: JsonList): Units
    decreases items, 1
  {
    match items
    case Nil => [CLOSE]
    case Cons(head, tail) => [COMMA] + (Stringify(head) + Rest(tail))
  }

  // ---------------------------------------------------------------------------
  // Reading strings back

  function Prepend(u: int, r: Option<(Units, Units)>): Option<(Units, Units)> {
    if r.None? then None else Some(([u] + r.value.0, r.value.1))
  }

  /** Reads up to the closing quote: the string, and what follows it. */
  function ReadString(t: Units): Option<(Units, Units)> {
    if t == [] then None
    else if t[0] == QUOTE then Some(([], t[1..]))
    else if t[0] != BACKSLASH then Prepend(t[0], ReadString(t[1..]))
    else if |t| < 2 then None
    else if t[1] != LETTER_U then Prepend(Unescaped(t[1]), ReadString(t[2..]))
    else if |t| < 6 then None
    else Prepend(((HexValue(t[2]) * 16 + HexValue(t[3])) * 16 + HexValue(t[4])) * 16 + HexValue(t[5]), ReadString(t[6..]))
  }

  lemma HexRoundTrip(d: int)
    requires 0 <= d < 16
    ensures HexValue(HexDigit(d)) == d
  {
  }

  lemma FourDigits(u: int)
    requires 0 <= u < 0x10000
    ensures ((u / 4096 * 16 + u / 256 % 16) * 16 + u / 16 % 16) * 16 + u % 16 == u
    ensures 0 <= u / 4096 < 16 && 0 <= u / 256 % 16 < 16 && 0 <= u / 16 % 16 < 16 && 0 <= u % 16 < 16
  {
    assert u / 256 == u / 4096 * 16 + u / 256 % 16;
    assert u / 16 == u / 256 * 16 + u / 16 % 16;
  }

  lemma Drops(a: Units, t: Units)
    ensures (a + t)[|a|..] == t
  {
  }

  lemma ReadsPlain(u: int, t: Units)
    requires u != QUOTE && u != BACKSLASH
    ensures ReadString([u] + t) == Prepend(u, ReadString(t))
  {
    Drops([u], t);
  }

  lemma ReadsShort(u: int, t: Units)
    requires ShortEscape(u).Some?
    ensures ReadString([BACKSLASH, ShortEscape(u).value] + t) == Prepend(u, ReadString(t))
  {
    Drops([BACKSLASH, ShortEscape(u).value], t);
  }

  lemma ReadsHex(a: int, b: int, c: int, d: int, t: Units)
    ensures ReadString([BACKSLASH, LETTER_U, a, b, c, d] + t)
            == Prepend(((HexValue(a) * 16 + HexValue(b)) * 16 + HexValue(c)) * 16 + HexValue(d), ReadString(t))
  {
    Drops([BACKSLASH, LETTER_U, a, b, c, d], t);
  }

  lemma ReadsUnit(u: int, t: Units)
    requires 0 <= u < 0x10000
    ensures ReadString(UnitText(u) + t) == Prepend(u, ReadString(t))
  {
    if ShortEscape(u).Some? {
      ReadsShort(u, t);
    } else if u < 0x20 || 0xd800 <= u < 0xe000 {
      FourDigits(u);
      HexRoundTrip(u / 4096);
      HexRoundTrip(u / 256 % 16);
      HexRoundTrip(u / 16 % 16);
      HexRoundTrip(u % 16);
      ReadsHex(HexDigit(u / 4096), HexDigit(u / 256 % 16), HexDigit(u / 16 % 16), HexDigit(u % 16), t);
    } else {
      ReadsPlain(u, t);
    }
  }

  lemma ReadsQuote(t: Units)
    ensures ReadString([QUOTE] + t) == Some(([], t))
  {
    Drops([QUOTE], t);
  }

  lemma FirstApart(s: Units)
    requires s != []
    ensures [s[0]] + s[1..] == s
    ensures IsText(s) ==> IsText(s[1..])
  {
  }

  /** Reading what was written gives the string back, whatever follows. */
  lemma {:induction false} ReadsBack(s: Units, t: Units)
    requires IsText(s)
    ensures ReadString(Escaped(s) + ([QUOTE] + t)) == Some((s, t))
    decreases |s|
  {
    var end := [QUOTE] + t;
    if s == [] {
      assert [] + end == end;
      ReadsQuote(t);
    } else {
      FirstApart(s);
      if |s| > 1 && HighSurrogate(s[0]) && LowSurrogate(s[1]) {
        FirstApart(s[1..]);
        assert s[1..][1..] == s[2..];
        ReadsBack(s[2..], t);
        Regroup([s[1]], Escaped(s[2..]), end);
        ReadsPlain(s[1], Escaped(s[2..]) + end);
        Regroup([s[0]], [s[1]] + Escaped(s[2..]), end);
        ReadsPlain(s[0], [s[1]] + (Escaped(s[2..]) + end));
      } else {
        ReadsBack(s[1..], t);
        Regroup(UnitText(s[0]), Escaped(s[1..]), end);
        ReadsUnit(s[0], Escaped(s[1..]) + end);
      }
    }
  }

  // ---------------------------------------------------------------------------
  // Numbers end where the digits end

  predicate DigitCode(u: int) {
    0x30 <= u < 0x3a
  }

  /** How many leading units are digits. */
  function Run(t: Units): nat {
    if t == [] || !DigitCode(t[0]) then 0 else 1 + Run(t[1..])
  }

  predicate AllDigitCodes(t: Units) {
    forall i :: 0 <= i < |t| ==> DigitCode(t[i])
  }

  /** What may follow a value inside an array, or nothing. */
  predicate EndsValue(x: Units) {
    x == [] || x[0] == COMMA || x[0] == CLOSE
  }

  lemma {:induction false} RunOfDigits(t: Units, x: Units)
    requires AllDigitCodes(t) && EndsValue(x)
    ensures Run(t + x) == |t|
  {
    if t == [] {
      assert t + x == x;
    } else {
      assert (t + x)[1..] == t[1..] + x;
      RunOfDigits(t[1..], x);
    }
  }

  lemma CodesOfDigits(s: string)
    requires AllDigits(s)
    ensures AllDigitCodes(Codes(s)) && |Codes(s)| == |s|
  {
  }

  lemma CodesAreInjective(s: string, t: string)
    requires Codes(s) == Codes(t)
    ensures s == t
  {
    assert |Codes(s)| == |s| && |Codes(t)| == |t|;
    forall i | 0 <= i < |s| ensures s[i] == t[i] {
      assert Codes(s)[i] == s[i] as int && Codes(t)[i] == t[i] as int;
    }
  }

  lemma NaturalsAreSeparable(m: nat, n: nat, x: Units, y: Units)
    requires EndsValue(x) && EndsValue(y) && Codes(DigitsOf(m)) + x == Codes(DigitsOf(n)) + y
    ensures m == n && x == y
  {
    CodesOfDigits(DigitsOf(m));
    CodesOfDigits(DigitsOf(n));
    RunOfDigits(Codes(DigitsOf(m)), x);
    RunOfDigits(Codes(DigitsOf(n)), y);
    SplitsAgree(Codes(DigitsOf(m)), x, Codes(DigitsOf(n)), y);
    CodesAreInjective(DigitsOf(m), DigitsOf(n));
    PrintedDigitsHaveTheValue(m);
    PrintedDigitsHaveTheValue(n);
  }

  lemma HeadOf(a: Units, x: Units)
    requires a != []
    ensures a + x != [] && (a + x)[0] == a[0]
  {
  }

  /** The first unit of a number: a minus sign or a digit. */
  lemma NumberHead(n: int, x: Units)
    ensures var t := NumberText(n) + x; t != [] && t[0] == (if n < 0 then MINUS else t[0]) && (n >= 0 ==> DigitCode(t[0]))
  {
    var digits := DigitsOf(if n < 0 then -n else n);
    CodesOfDigits(digits);
    HeadOf(NumberText(n), x);
  }

  lemma SignsAgree(m: int, n: int, x: Units, y: Units)
    requires NumberText(m) + x == NumberText(n) + y
    ensures m < 0 <==> n < 0
  {
    NumberHead(m, x);
    NumberHead(n, y);
  }

  lemma NegativeTail(n: int, x: Units)
    requires n < 0
    ensures NumberText(n) + x == [MINUS] + (Codes(DigitsOf(-n)) + x)
  {
    Regroup([MINUS], Codes(DigitsOf(-n)), x);
  }

  lemma NegativesAreSeparable(m: int, n: int, x: Units, y: Units)
    requires m < 0 && n < 0 && EndsValue(x) && EndsValue(y) && NumberText(m) + x == NumberText(n) + y
    ensures m == n && x == y
  {
    NegativeTail(m, x);
    NegativeTail(n, y);
    SplitsAgree([MINUS], Codes(DigitsOf(-m)) + x, [MINUS], Codes(DigitsOf(-n)) + y);
    NaturalsAreSeparable(-m, -n, x, y);
  }

  lemma NumbersAreSeparable(m: int, n: int, x: Units, y: Units)
    requires EndsValue(x) && EndsValue(y) && NumberText(m) + x == NumberText(n) + y
    ensures m == n && x == y
  {
    SignsAgree(m, n, x, y);
    if m < 0 {
      NegativesAreSeparable(m, n, x, y);
    } else {
      NaturalsAreSeparable(m, n, x, y);
    }
  }

  // ---------------------------------------------------------------------------
  // JSON text determines the value

  predicate WellFormed(v: Json) {
    match v
    case JString(text) => IsText(text)
    case JNumber(_) => true
    case JArray(items) => WellFormedItems(items)
  }

  predicate WellFormedItems(items: JsonList) {
    match items
    case Nil => true
    case Cons(head, tail) => WellFormed(head) && WellFormedItems(tail)
  }

  lemma ArrayIsWellFormed(items: JsonList)
    requires WellFormedItems(items)
    ensures WellFormed(JArray(items))
  {
  }

  lemma ConsIsWellFormed(head: Json, tail: JsonList)
    requires WellFormed(head) && WellFormedItems(tail)
    ensures WellFormedItems(Cons(head, tail))
  {
  }

  lemma ValueHead(v: Json, x: Units)
    ensures var t := Stringify(v) + x;
            && t != []
            && (v.JString? <==> t[0] == QUOTE) && (v.JArray? <==> t[0] == OPEN)
            && t[0] != CLOSE && t[0] != COMMA
  {
    match v {
      case JString(text) => HeadOf(Stringify(v), x);
      case JNumber(n) => NumberHead(n, x);
      case JArray(_) => HeadOf(Stringify(v), x);
    }
  }

  lemma StringsAreSeparable(s: Units, t: Units, x: Units, y: Units)
    requires IsText(s) && IsText(t) && Stringify(JString(s)) + x == Stringify(JString(t)) + y
    ensures s == t && x == y
  {
    StringTail(s, x);
    StringTail(t, y);
    SplitsAgree([QUOTE], Escaped(s) + ([QUOTE] + x), [QUOTE], Escaped(t) + ([QUOTE] + y));
    ReadsBack(s, x);
    ReadsBack(t, y);
  }

  lemma StringTail(s: Units, x: Units)
    ensures Stringify(JString(s)) + x == [QUOTE] + (Escaped(s) + ([QUOTE] + x))
  {
    Regroup([QUOTE], Escaped(s) + [QUOTE], x);
    Regroup(Escaped(s), [QUOTE], x);
  }

  lemma RestEnds(items: JsonList, x: Units)
    ensures EndsValue(Rest(items) + x)
    ensures (Rest(items) + x)[0] == if items.Nil? then CLOSE else COMMA
  {
    HeadOf(Rest(items), x);
  }

  lemma ItemsTail(first: int, head: Json, tail: JsonList, x: Units)
    ensures [first] + (Stringify(head) + Rest(tail)) + x == [first] + (Stringify(head) + (Rest(tail) + x))
  {
    Regroup([first], Stringify(head) + Rest(tail), x);
    Regroup(Stringify(head), Rest(tail), x);
  }

  /** Unique decodability: a value and what follows it can be told apart. */
  lemma {:induction false} ValuesAreSeparable(v: Json, w: Json, x: Units, y: Units)
    requires WellFormed(v) && WellFormed(w) && EndsValue(x) && EndsValue(y) && Stringify(v) + x == Stringify(w) + y
    ensures v == w && x == y
    decreases v, 0
  {
    ValueHead(v, x);
    ValueHead(w, y);
    match v {
      case JString(text) => StringsAreSeparable(text, w.text, x, y);
      case JNumber(n) => NumbersAreSeparable(n, w.number, x, y);
      case JArray(items) => ArraysAreSeparable(items, w.items, x, y);
    }
  }

  lemma {:induction false} ArraysAreSeparable(a: JsonList, b: JsonList, x: Units, y: Units)
    requires WellFormedItems(a) && WellFormedItems(b) && Stringify(JArray(a)) + x == Stringify(JArray(b)) + y
    ensures a == b && x == y
    decreases a, 2
  {
    AfterOpen(a, x);
    AfterOpen(b, y);
    SplitsAgree([OPEN], Inside(a, x), [OPEN], Inside(b, y));
    if a.Cons? {
      ValueHead(a.head, Rest(a.tail) + x);
    }
    if b.Cons? {
      ValueHead(b.head, Rest(b.tail) + y);
    }
    if a.Cons? {
      RestEnds(a.tail, x);
      RestEnds(b.tail, y);
      ValuesAreSeparable(a.head, b.head, Rest(a.tail) + x, Rest(b.tail) + y);
      RestsAreSeparable(a.tail, b.tail, x, y);
    } else {
      SplitsAgree([CLOSE], x, [CLOSE], y);
    }
  }

  function Inside(items: JsonList, x: Units): Units {
    match items
    case Nil => [CLOSE] + x
    case Cons(head, tail) => Stringify(head) + (Rest(tail) + x)
  }

  lemma AfterOpen(items: JsonList, x: Units)
    ensures Stringify(JArray(items)) + x == [OPEN] + Inside(items, x)
    ensures items.Nil? ==> Inside(items, x)[0] == CLOSE
  {
    match items {
      case Nil =>
        assert [OPEN, CLOSE] == [OPEN] + [CLOSE];
        Regroup([OPEN], [CLOSE], x);
      case Cons(head, tail) => ItemsTail(OPEN, head, tail, x);
    }
  }

  lemma {:induction false} RestsAreSeparable(a: JsonList, b: JsonList, x: Units, y: Units)
    requires WellFormedItems(a) && WellFormedItems(b) && Rest(a) + x == Rest(b) + y
    ensures a == b && x == y
    decreases a, 1
  {
    RestEnds(a, x);
    RestEnds(b, y);
    if a.Cons? {
      ItemsTail(COMMA, a.head, a.tail, x);
      ItemsTail(COMMA, b.head, b.tail, y);
      SplitsAgree([COMMA], Stringify(a.head) + (Rest(a.tail) + x), [COMMA], Stringify(b.head) + (Rest(b.tail) + y));
      RestEnds(a.tail, x);
      RestEnds(b.tail, y);
      ValuesAreSeparable(a.head, b.head, Rest(a.tail) + x, Rest(b.tail) + y);
      RestsAreSeparable(a.tail, b.tail, x, y);
    } else {
      SplitsAgree([CLOSE], x, [CLOSE], y);
    }
  }

  lemma StringifyIsInjective(v: Json, w: Json)
    requires WellFormed(v) && WellFormed(w)
    ensures Stringify(v) == Stringify(w) <==> v == w
  {
    assert Stringify(v) + [] == Stringify(v) && Stringify(w) + [] == Stringify(w);
    if Stringify(v) == Stringify(w) {
      ValuesAreSeparable(v, w, [], []);
    }
  }

  // ---------------------------------------------------------------------------
  // Canonical rooms and targets

  datatype Room = Room(adults: int, childAges: seq<int>)

  datatype Target = Properties(ids: seq<Units>) | Location(id: Units)

  datatype KeyInput = KeyInput(tenant: Units, supplierCode: Units, target: Target, checkIn: Units, checkOut: Units,
                               rooms: seq<Room>, nationality: Units)

  function Identity(n: int): int {
    n
  }

  predicate AgeLeq(a: int, b: int) {
    a <= b
  }

  /** The comparator of occupancySignature: adults, then number of ages, then the first age that differs. */
  predicate RoomLeq(a: Room, b: Room) {
    a.adults < b.adults
    || (a.adults == b.adults
        && (|a.childAges| < |b.childAges| || (|a.childAges| == |b.childAges| && !LexLess(Identity, b.childAges, a.childAges))))
  }

  predicate UnitsLeq(a: Units, b: Units) {
    !LexLess(Identity, b, a)
  }

  function SortedAges(room: Room): Room {
    Room(room.adults, Sort(AgeLeq, room.childAges))
  }

  function SortedRooms(rooms: seq<Room>): seq<Room> {
    if rooms == [] then [] else SortedRooms(rooms[..|rooms| - 1]) + [SortedAges(rooms[|rooms| - 1])]
  }

  function OccupancySignature(rooms: seq<Room>): seq<Room> {
    Sort(RoomLeq, SortedRooms(rooms))
  }

  function TargetSignature(target: Target): (Units, seq<Units>) {
    match target
    case Properties(ids) => (Codes("properties"), Sort(UnitsLeq, ids))
    case Location(id) => (Codes("location"), [id])
  }

  lemma AgesAreOrdered()
    ensures TotalOrder(AgeLeq)
  {
  }

  lemma LexFacts(a: Units, b: Units, c: Units)
    ensures !LexLess(Identity, a, a)
    ensures a == b || LexLess(Identity, a, b) || LexLess(Identity, b, a)
    ensures !(LexLess(Identity, a, b) && LexLess(Identity, b, a))
    ensures UnitsLeq(a, b) && UnitsLeq(b, c) ==> UnitsLeq(a, c)
  {
    LexIsIrreflexive(Identity, a);
    LexIsTotal(Identity, a, b);
    LexIsTotal(Identity, b, c);
    if LexLess(Identity, a, b) && LexLess(Identity, b, a) {
      LexIsTransitive(Identity, a, b, a);
    }
    if UnitsLeq(a, b) && UnitsLeq(b, c) && LexLess(Identity, c, a) {
      if a != b {
        LexIsTransitive(Identity, c, a, b);
      }
    }
  }

  lemma UnitsAreOrdered()
    ensures TotalOrder(UnitsLeq)
  {
    forall a, b, c ensures (UnitsLeq(a, b) || UnitsLeq(b, a)) && (UnitsLeq(a, b) && UnitsLeq(b, a) ==> a == b)
                           && (UnitsLeq(a, b) && UnitsLeq(b, c) ==> UnitsLeq(a, c)) {
      LexFacts(a, b, c);
    }
  }

  lemma RoomsAreOrdered()
    ensures TotalOrder(RoomLeq)
  {
    forall a: Room, b: Room, c: Room ensures (RoomLeq(a, b) || RoomLeq(b, a)) && (RoomLeq(a, b) && RoomLeq(b, a) ==> a == b)
                                             && (RoomLeq(a, b) && RoomLeq(b, c) ==> RoomLeq(a, c)) {
      LexFacts(a.childAges, b.childAges, c.childAges);
    }
  }

  /** What matters about a room: its adults and the multiset of its children's ages. */
  datatype Party = Party(adults: int, ages: multiset<int>)

  function PartyOf(room: Room): Party {
    Party(room.adults, multiset(room.childAges))
  }

  function Parties(rooms: seq<Room>): seq<Party> {
    if rooms == [] then [] else Parties(rooms[..|rooms| - 1]) + [PartyOf(rooms[|rooms| - 1])]
  }

  lemma SameParty(a: Room, b: Room)
    ensures SortedAges(a) == SortedAges(b) <==> PartyOf(a) == PartyOf(b)
  {
    AgesAreOrdered();
    SortIsCanonical(AgeLeq, a.childAges, b.childAges);
  }

  lemma {:induction false} RoomCounts(rooms: seq<Room>, room: Room)
    ensures multiset(SortedRooms(rooms))[SortedAges(room)] == multiset(Parties(rooms))[PartyOf(room)]
  {
    if rooms != [] {
      RoomCounts(rooms[..|rooms| - 1], room);
      SameParty(rooms[|rooms| - 1], room);
    }
  }

  lemma {:induction false} SortedRoomFrom(rooms: seq<Room>, r: Room) returns (room: Room)
    requires r in SortedRooms(rooms)
    ensures SortedAges(room) == r
  {
    var last := rooms[|rooms| - 1];
    if r == SortedAges(last) {
      room := last;
    } else {
      room := SortedRoomFrom(rooms[..|rooms| - 1], r);
    }
  }

  lemma {:induction false} PartyFrom(rooms: seq<Room>, p: Party) returns (room: Room)
    requires p in Parties(rooms)
    ensures PartyOf(room) == p
  {
    var last := rooms[|rooms| - 1];
    if p == PartyOf(last) {
      room := last;
    } else {
      room := PartyFrom(rooms[..|rooms| - 1], p);
    }
  }

  /** Sorting ages within rooms and then rooms is canonical for multisets of parties. */
  lemma {:induction false} OccupancyIsCanonical(a: seq<Room>, b: seq<Room>)
    ensures OccupancySignature(a) == OccupancySignature(b) <==> multiset(Parties(a)) == multiset(Parties(b))
  {
    RoomsAreOrdered();
    SortIsCanonical(RoomLeq, SortedRooms(a), SortedRooms(b));
    var xs, ys := multiset(SortedRooms(a)), multiset(SortedRooms(b));
    var ps, qs := multiset(Parties(a)), multiset(Parties(b));
    if ps == qs {
      forall r ensures xs[r] == ys[r] {
        if r in xs || r in ys {
          var room := SortedRoomFrom(if r in xs then a else b, r);
          RoomCounts(a, room);
          RoomCounts(b, room);
        }
      }
      assert xs == ys;
    }
    if xs == ys {
      forall p ensures ps[p] == qs[p] {
        if p in ps || p in qs {
          var room := PartyFrom(if p in ps then a else b, p);
          RoomCounts(a, room);
          RoomCounts(b, room);
        }
      }
      assert ps == qs;
    }
  }

  predicate SameTarget(a: Target, b: Target) {
    match (a, b)
    case (Properties(x), Properties(y)) => multiset(x) == multiset(y)
    case (Location(x), Location(y)) => x == y
    case _ => false
  }

  lemma TargetIsCanonical(a: Target, b: Target)
    ensures TargetSignature(a) == TargetSignature(b) <==> SameTarget(a, b)
  {
    UnitsAreOrdered();
    if a.Properties? && b.Properties? {
      SortIsCanonical(UnitsLeq, a.ids, b.ids);
    }
    KindsDiffer();
  }

  lemma KindsDiffer()
    ensures Codes("properties") != Codes("location")
  {
    assert |Codes("properties")| == 10 && |Codes("location")| == 8;
  }

  // ---------------------------------------------------------------------------
  // The key

  function StringItems(xs: seq<Units>): JsonList {
    if xs == [] then Nil else Cons(JString(xs[0]), StringItems(xs[1..]))
  }

  function NumberItems(xs: seq<int>): JsonList {
    if xs == [] then Nil else Cons(JNumber(xs[0]), NumberItems(xs[1..]))
  }

  function RoomJson(room: Room): Json {
    JArray(Cons(JNumber(room.adults), Cons(JArray(NumberItems(room.childAges)), Nil)))
  }

  function RoomItems(rooms: seq<Room>): JsonList {
    if rooms == [] then Nil else Cons(RoomJson(rooms[0]), RoomItems(rooms[1..]))
  }

  function TargetJson(signature: (Units, seq<Units>)): Json {
    JArray(Cons(JString(signature.0), Cons(JArray(StringItems(signature.1)), Nil)))
  }

  function KeyJson(input: KeyInput): Json {
    JArray(Cons(JString(input.tenant),
           Cons(JString(input.supplierCode),
           Cons(TargetJson(TargetSignature(input.target)),
           Cons(JString(input.checkIn),
           Cons(JString(input.checkOut),
           Cons(JArray(RoomItems(OccupancySignature(input.rooms))),
           Cons(JString(input.nationality), Nil))))))))
  }

  const AVAILABILITY_PREFIX := "jenova:hotel-avail:v1:"

  function AvailabilityCacheKey(input: KeyInput): Units {
    Codes(AVAILABILITY_PREFIX) + Stringify(KeyJson(input))
  }

  predicate AllText(xs: seq<Units>) {
    forall i :: 0 <= i < |xs| ==> IsText(xs[i])
  }

  /** Every string of the input is a string. */
  predicate TextInput(input: KeyInput) {
    && IsText(input.tenant) && IsText(input.supplierCode) && IsText(input.checkIn) && IsText(input.checkOut) && IsText(input.nationality)
    && AllText(if input.target.Properties? then input.target.ids else [input.target.id])
  }

  lemma {:induction false} StringItemsAreInjective(xs: seq<Units>, ys: seq<Units>)
    ensures StringItems(xs) == StringItems(ys) <==> xs == ys
  {
    if xs != [] && ys != [] {
      StringItemsAreInjective(xs[1..], ys[1..]);
      assert xs == [xs[0]] + xs[1..] && ys == [ys[0]] + ys[1..];
    }
  }

  lemma {:induction false} NumberItemsAreInjective(xs: seq<int>, ys: seq<int>)
    ensures NumberItems(xs) == NumberItems(ys) <==> xs == ys
  {
    if xs != [] && ys != [] {
      NumberItemsAreInjective(xs[1..], ys[1..]);
      assert xs == [xs[0]] + xs[1..] && ys == [ys[0]] + ys[1..];
    }
  }

  lemma {:induction false} RoomItemsAreInjective(xs: seq<Room>, ys: seq<Room>)
    ensures RoomItems(xs) == RoomItems(ys) <==> xs == ys
  {
    if xs != [] && ys != [] {
      RoomItemsAreInjective(xs[1..], ys[1..]);
      NumberItemsAreInjective(xs[0].childAges, ys[0].childAges);
      assert xs == [xs[0]] + xs[1..] && ys == [ys[0]] + ys[1..];
    }
  }

  lemma {:induction false} StringItemsAreWellFormed(xs: seq<Units>)
    requires AllText(xs)
    ensures WellFormedItems(StringItems(xs))
  {
    if xs != [] {
      StringItemsAreWellFormed(xs[1..]);
    }
  }

  lemma {:induction false} NumberItemsAreWellFormed(xs: seq<int>)
    ensures WellFormedItems(NumberItems(xs))
  {
    if xs != [] {
      NumberItemsAreWellFormed(xs[1..]);
    }
  }

  lemma PairIsWellFormed(a: Json, b: Json)
    requires WellFormed(a) && WellFormed(b)
    ensures WellFormed(JArray(Cons(a, Cons(b, Nil))))
  {
    ConsIsWellFormed(b, Nil);
    ConsIsWellFormed(a, Cons(b, Nil));
    ArrayIsWellFormed(Cons(a, Cons(b, Nil)));
  }

  lemma RoomIsWellFormed(room: Room)
    ensures WellFormed(RoomJson(room))
  {
    NumberItemsAreWellFormed(room.childAges);
    ArrayIsWellFormed(NumberItems(room.childAges));
    PairIsWellFormed(JNumber(room.adults), JArray(NumberItems(room.childAges)));
  }

  lemma {:induction false} RoomItemsAreWellFormed(rooms: seq<Room>)
    ensures WellFormedItems(RoomItems(rooms))
  {
    if rooms != [] {
      RoomIsWellFormed(rooms[0]);
      RoomItemsAreWellFormed(rooms[1..]);
    }
  }

  lemma SortedIdsAreText(ids: seq<Units>)
    requires AllText(ids)
    ensures AllText(Sort(UnitsLeq, ids))
  {
    SortKeepsElements(UnitsLeq, ids);
    var sorted := Sort(UnitsLeq, ids);
    forall i | 0 <= i < |sorted| ensures IsText(sorted[i]) {
      assert sorted[i] in multiset(sorted);
      assert sorted[i] in ids;
    }
  }

  lemma CodesAreText(s: string)
    requires forall i :: 0 <= i < |s| ==> s[i] as int < 128
    ensures IsText(Codes(s))
  {
  }

  lemma TargetIsWellFormed(input: KeyInput)
    requires TextInput(input)
    ensures WellFormed(TargetJson(TargetSignature(input.target)))
  {
    CodesAreText("properties");
    CodesAreText("location");
    var (kind, ids) := TargetSignature(input.target);
    if input.target.Properties? {
      SortedIdsAreText(input.target.ids);
    }
    StringItemsAreWellFormed(ids);
    ArrayIsWellFormed(StringItems(ids));
    PairIsWellFormed(JString(kind), JArray(StringItems(ids)));
  }

  lemma KeyIsWellFormed(input: KeyInput)
    requires TextInput(input)
    ensures WellFormed(KeyJson(input))
  {
    var rooms := JArray(RoomItems(OccupancySignature(input.rooms)));
    TargetIsWellFormed(input);
    RoomItemsAreWellFormed(OccupancySignature(input.rooms));
    ArrayIsWellFormed(rooms.items);
    var items := Cons(JString(input.nationality), Nil);
    ConsIsWellFormed(JString(input.nationality), Nil);
    ConsIsWellFormed(rooms, items);
    items := Cons(rooms, items);
    ConsIsWellFormed(JString(input.checkOut), items);
    items := Cons(JString(input.checkOut), items);
    ConsIsWellFormed(JString(input.checkIn), items);
    items := Cons(JString(input.checkIn), items);
    ConsIsWellFormed(TargetJson(TargetSignature(input.target)), items);
    items := Cons(TargetJson(TargetSignature(input.target)), items);
    ConsIsWellFormed(JString(input.supplierCode), items);
    items := Cons(JString(input.supplierCode), items);
    ConsIsWellFormed(JString(input.tenant), items);
    ArrayIsWellFormed(Cons(JString(input.tenant), items));
  }

  /** The JSON value determines, and is determined by, the canonical components. */
  lemma KeyJsonIsInjective(a: KeyInput, b: KeyInput)
    ensures KeyJson(a) == KeyJson(b)
            <==> && a.tenant == b.tenant && a.supplierCode == b.supplierCode && a.checkIn == b.checkIn && a.checkOut == b.checkOut
                 && a.nationality == b.nationality && TargetSignature(a.target) == TargetSignature(b.target)
                 && OccupancySignature(a.rooms) == OccupancySignature(b.rooms)
  {
    StringItemsAreInjective(TargetSignature(a.target).1, TargetSignature(b.target).1);
    RoomItemsAreInjective(OccupancySignature(a.rooms), OccupancySignature(b.rooms));
  }

  /**
   Two keys are equal if and only if tenant, supplier, dates, nationality and target kind agree, the
   property ids agree as multisets, and the rooms agree as multisets of adults with multisets of ages.
   */
  lemma KeysIdentifyEquivalentQueries(a: KeyInput, b: KeyInput)
    requires TextInput(a) && TextInput(b)
    ensures AvailabilityCacheKey(a) == AvailabilityCacheKey(b)
            <==> && a.tenant == b.tenant && a.supplierCode == b.supplierCode && a.checkIn == b.checkIn && a.checkOut == b.checkOut
                 && a.nationality == b.nationality && SameTarget(a.target, b.target)
                 && multiset(Parties(a.rooms)) == multiset(Parties(b.rooms))
  {
    if AvailabilityCacheKey(a) == AvailabilityCacheKey(b) {
      SplitsAgree(Codes(AVAILABILITY_PREFIX), Stringify(KeyJson(a)), Codes(AVAILABILITY_PREFIX), Stringify(KeyJson(b)));
    }
    KeyIsWellFormed(a);
    KeyIsWellFormed(b);
    StringifyIsInjective(KeyJson(a), KeyJson(b));
    KeyJsonIsInjective(a, b);
    TargetIsCanonical(a.target, b.target);
    OccupancyIsCanonical(a.rooms, b.rooms);
  }
}
