/**
 The text a fingerprint hashes: `JSON.stringify` of the canonical form for objects and arrays, and
 the plain text of anything else. A reader of JSON text gets every printed value back, so two objects
 are hashed as the same text exactly when they agree up to key order.
 */
module JsonText {
  import opened Bytes
  import opened CanonicalJson
  import opened Wrappers

  const QUOTE: Unit := 34
  const BACKSLASH: Unit := 92
  const COMMA: Unit := 44
  const COLON: Unit := 58
  const OPEN_ARRAY: Unit := 91
  const CLOSE_ARRAY: Unit := 93
  const OPEN_OBJECT: Unit := 123
  const CLOSE_OBJECT: Unit := 125

  predicate IsHigh(c: Unit) { 0xD800 <= c < 0xDC00 }
  predicate IsLow(c: Unit) { 0xDC00 <= c < 0xE000 }

  /** A surrogate that is not half of a pair. */
  predicate IsLone(s: Text, i: nat)
    requires i < |s|
  {
    || (IsHigh(s[i]) && !(i + 1 < |s| && IsLow(s[i + 1])))
    || (IsLow(s[i]) && !(i > 0 && IsHigh(s[i - 1])))
  }

  function Hex4(c: Unit): Text {
    [HexDigit(c / 4096), HexDigit(c / 256 % 16), HexDigit(c / 16 % 16), HexDigit(c % 16)]
  }

  /** The letter of a two-character escape, or 0. */
  function ShortEscape(c: Unit): Unit {
    if c == 8 then 98 else if c == 9 then 116 else if c == 10 then 110 else if c == 12 then 102
    else if c == 13 then 114 else if c == QUOTE then QUOTE else if c == BACKSLASH then BACKSLASH else 0
  }

  /** How one code unit of a string is printed. */
  function Token(s: Text, i: nat): Text
    requires i < |s|
  {
    var c := s[i];
    if ShortEscape(c) != 0 then [BACKSLASH, ShortEscape(c)]
    else if c < 32 || IsLone(s, i) then [BACKSLASH, 117] + Hex4(c)
    else [c]
  }

  function Body(s: Text, i: nat): Text
    requires i <= |s|
    decreases |s| - i
  {
    if i == |s| then [] else Token(s, i) + Body(s, i + 1)
  }

  /** The quoted string. */
  function Quote(s: Text): Text {
    [QUOTE] + Body(s, 0) + [QUOTE]
  }

  const NULL_TEXT: Text := [110, 117, 108, 108]
  const TRUE_TEXT: Text := [116, 114, 117, 101]
  const FALSE_TEXT: Text := [102, 97, 108, 115, 101]

  /** `JSON.stringify` of a value without buffers. */
  function Print(v: Json): Text {
    match v
    case Null => NULL_TEXT
    case Bool(b) => if b then TRUE_TEXT else FALSE_TEXT
    case Number(digits) => digits
    case String(text) => Quote(text)
    case Buffer(bytes) => Quote(Hex(bytes))
    case Array(items) => [OPEN_ARRAY] + PrintItems(items)
    case Object(members) => [OPEN_OBJECT] + PrintMembers(members)
  }

  /** The items with their separators and the closing bracket. */
  function PrintItems(items: seq<Json>): Text {
    if items == [] then [CLOSE_ARRAY]
    else Print(items[0]) + (if |items| == 1 then [] else [COMMA]) + PrintItems(items[1..])
  }

  function PrintMembers(members: seq<Member>): Text {
    if members == [] then [CLOSE_OBJECT]
    else Quote(members[0].key) + [COLON] + Print(members[0].value) +
         (if |members| == 1 then [] else [COMMA]) + PrintMembers(members[1..])
  }

  /** The characters of a number: digits, sign, point and exponent. */
  predicate IsNumberUnit(c: Unit) {
    48 <= c <= 57 || c == 45 || c == 43 || c == 46 || c == 101
  }

  predicate IsNumberText(digits: Text) {
    && digits != [] && (forall i :: 0 <= i < |digits| ==> IsNumberUnit(digits[i]))
    && (48 <= digits[0] <= 57 || digits[0] == 45)
  }

  /** Numbers are printed numbers, and there are no buffers left. */
  predicate Printable(v: Json) {
    match v
    case Number(digits) => IsNumberText(digits)
    case Buffer(_) => false
    case Array(items) => forall item :: item in items ==> Printable(item)
    case Object(members) => forall m :: m in members ==> Printable(m.value)
    case _ => true
  }

  /** What may follow a value: nothing, or a separator or a closing bracket. */
  predicate IsEnd(rest: Text) {
    rest == [] || rest[0] == COMMA || rest[0] == CLOSE_ARRAY || rest[0] == CLOSE_OBJECT
  }

  /** The characters of a hexadecimal number, in either case. */
  predicate IsHexDigit(c: Unit) {
    48 <= c <= 57 || 65 <= c <= 70 || 97 <= c <= 102
  }

  function HexValue(c: Unit): (n: nat)
    ensures n < 16
  {
    if 48 <= c <= 57 then c - 48 else if 65 <= c <= 70 then c - 55 else if 97 <= c <= 102 then c - 87 else 0
  }

  /** How strings are printed: what stands for itself, what has a short escape, and what is a number. */
  lemma TokenCases(s: Text, i: nat)
    requires i < |s|
    ensures var c := s[i];
            var lone := (0xD800 <= c <= 0xDBFF && !(i + 1 < |s| && 0xDC00 <= s[i + 1] <= 0xDFFF))
                     || (0xDC00 <= c <= 0xDFFF && !(i > 0 && 0xD800 <= s[i - 1] <= 0xDBFF));
            if c in {8, 9, 10, 12, 13, 34, 92} then |Token(s, i)| == 2
            else if c < 32 || lone then
              && |Token(s, i)| == 6 && Token(s, i)[..2] == [92, 117]
              && forall k :: 2 <= k < 6 ==> 48 <= Token(s, i)[k] <= 57 || 97 <= Token(s, i)[k] <= 102
            else Token(s, i) == [c]
  {
  }

  // Reading

  /** What a short escape stands for (section 7 of RFC 8259). */
  function Unescape(letter: Unit): Option<Unit> {
    if letter == 34 || letter == 92 || letter == 47 then Some(letter)
    else if letter == 98 then Some(8)
    else if letter == 102 then Some(12)
    else if letter == 110 then Some(10)
    else if letter == 114 then Some(13)
    else if letter == 116 then Some(9)
    else None
  }

  function Before(c: Unit, read: Option<(Text, Text)>): (r: Option<(Text, Text)>)
    ensures r.Some? ==> read.Some? && r.value.1 == read.value.1
  {
    if read.None? then None else Some(([c] + read.value.0, read.value.1))
  }

  /** A string behind its opening quote, and the text behind the closing one. */
  function ReadString(text: Text): (r: Option<(Text, Text)>)
    ensures r.Some? ==> |r.value.1| < |text|
  {
    if text == [] || text[0] < 32 then None
    else if text[0] == 34 then Some(([], text[1..]))
    else if text[0] != 92 then Before(text[0], ReadString(text[1..]))
    else if |text| < 2 then None
    else if text[1] != 117 then
      var c := Unescape(text[1]);
      if c.None? then None else Before(c.value, ReadString(text[2..]))
    else if |text| < 6 || exists k :: 2 <= k < 6 && !IsHexDigit(text[k]) then None
    else
      var c := HexValue(text[2]) * 4096 + HexValue(text[3]) * 256 + HexValue(text[4]) * 16 + HexValue(text[5]);
      Before(c, ReadString(text[6..]))
  }

  /** How many number characters a text starts with. */
  function NumberLength(text: Text): (n: nat)
    ensures n <= |text|
  {
    if text == [] || !IsNumberUnit(text[0]) then 0 else 1 + NumberLength(text[1..])
  }

  predicate Starts(text: Text, word: Text) {
    |word| <= |text| && text[..|word|] == word
  }

  /** A JSON value without spaces between its parts, and the text behind it (sections 3 to 7 of RFC 8259). */
  function Read(text: Text): (r: Option<(Json, Text)>)
    ensures r.Some? ==> |r.value.1| < |text|
    decreases |text|, 0
  {
    if text == [] then None
    else if Starts(text, [110, 117, 108, 108]) then Some((Null, text[4..]))
    else if Starts(text, [116, 114, 117, 101]) then Some((Bool(true), text[4..]))
    else if Starts(text, [102, 97, 108, 115, 101]) then Some((Bool(false), text[5..]))
    else if 48 <= text[0] <= 57 || text[0] == 45 then
      var n := NumberLength(text);
      assert n > 0;
      Some((Number(text[..n]), text[n..]))
    else if text[0] == 34 then
      var s := ReadString(text[1..]);
      if s.None? then None else Some((String(s.value.0), s.value.1))
    else if text[0] == 91 then
      if |text| > 1 && text[1] == 93 then Some((Array([]), text[2..]))
      else
        var items := ReadItems(text[1..]);
        if items.None? then None else Some((Array(items.value.0), items.value.1))
    else if text[0] == 123 then
      if |text| > 1 && text[1] == 125 then Some((Object([]), text[2..]))
      else
        var members := ReadMembers(text[1..]);
        if members.None? then None else Some((Object(members.value.0), members.value.1))
    else None
  }

  /** One item or more, up to the closing bracket. */
  function ReadItems(text: Text): (r: Option<(seq<Json>, Text)>)
    ensures r.Some? ==> |r.value.1| < |text|
    decreases |text|, 1
  {
    var first := Read(text);
    if first.None? || first.value.1 == [] then None
    else
      var (item, rest) := first.value;
      if rest[0] == 93 then Some(([item], rest[1..]))
      else if rest[0] != 44 then None
      else
        var others := ReadItems(rest[1..]);
        if others.None? then None else Some(([item] + others.value.0, others.value.1))
  }

  /** A quoted key, a colon and the value behind it. */
  function ReadMember(text: Text): (r: Option<(Member, Text)>)
    ensures r.Some? ==> |r.value.1| < |text|
    decreases |text|, 1
  {
    if text == [] || text[0] != 34 then None
    else
      var key := ReadString(text[1..]);
      if key.None? || key.value.1 == [] || key.value.1[0] != 58 then None
      else
        var value := Read(key.value.1[1..]);
        if value.None? then None else Some((Member(key.value.0, value.value.0), value.value.1))
  }

  /** One member or more, up to the closing brace. */
  function ReadMembers(text: Text): (r: Option<(seq<Member>, Text)>)
    ensures r.Some? ==> |r.value.1| < |text|
    decreases |text|, 2
  {
    var first := ReadMember(text);
    if first.None? || first.value.1 == [] then None
    else
      var (m, rest) := first.value;
      if rest[0] == 125 then Some(([m], rest[1..]))
      else if rest[0] != 44 then None
      else
        var others := ReadMembers(rest[1..]);
        if others.None? then None else Some(([m] + others.value.0, others.value.1))
  }

  // Reading what was printed

  lemma Regroup(a: Text, b: Text, c: Text)
    ensures a + b + c == a + (b + c)
  {
  }

  lemma SuffixAfter(a: Text, x: Text)
    ensures (a + x)[..|a|] == a && (a + x)[|a|..] == x
  {
  }

  lemma HexSum(c: Unit)
    ensures c == c / 4096 * 4096 + c / 256 % 16 * 256 + c / 16 % 16 * 16 + c % 16
  {
    assert c / 16 == c / 256 * 16 + c / 16 % 16;
    assert c / 256 == c / 4096 * 16 + c / 256 % 16;
  }

  lemma HexReads(n: int)
    requires 0 <= n < 16
    ensures IsHexDigit(HexDigit(n)) && HexValue(HexDigit(n)) == n
  {
  }

  lemma ReadsHex(c: Unit, x: Text)
    ensures ReadString([BACKSLASH, 117] + Hex4(c) + x) == Before(c, ReadString(x))
  {
    var digits, text := Hex4(c), [BACKSLASH, 117] + Hex4(c) + x;
    assert text[2] == digits[0] && text[3] == digits[1] && text[4] == digits[2] && text[5] == digits[3];
    assert text[6..] == x;
    HexReads(c / 4096);
    HexReads(c / 256 % 16);
    HexReads(c / 16 % 16);
    HexReads(c % 16);
    HexSum(c);
    hide HexDigit, HexValue, IsHexDigit, Unescape;
  }

  lemma ReadsShort(c: Unit, x: Text)
    requires ShortEscape(c) != 0
    ensures ReadString([BACKSLASH, ShortEscape(c)] + x) == Before(c, ReadString(x))
  {
    var text := [BACKSLASH, ShortEscape(c)] + x;
    assert text[2..] == x;
  }

  lemma ReadsPlain(c: Unit, x: Text)
    requires ShortEscape(c) == 0 && c >= 32
    ensures ReadString([c] + x) == Before(c, ReadString(x))
  {
    assert ([c] + x)[1..] == x;
  }

  lemma ReadsToken(s: Text, i: nat, x: Text)
    requires i < |s|
    ensures ReadString(Token(s, i) + x) == Before(s[i], ReadString(x))
  {
    hide ReadString, ShortEscape, IsLone, Hex4;
    var c := s[i];
    if ShortEscape(c) != 0 {
      ReadsShort(c, x);
    } else if c < 32 || IsLone(s, i) {
      ReadsHex(c, x);
    } else {
      ReadsPlain(c, x);
    }
  }

  lemma {:induction false} ReadsBody(s: Text, i: nat, x: Text)
    requires i <= |s|
    ensures ReadString(Body(s, i) + [QUOTE] + x) == Some((s[i..], x))
    decreases |s| - i
  {
    hide Token;
    if i == |s| {
      hide ReadString;
      ClosesString(x);
      assert Body(s, i) + [QUOTE] + x == [QUOTE] + x;
    } else {
      hide ReadString;
      var rest := Body(s, i + 1) + [QUOTE] + x;
      assert Body(s, i) + [QUOTE] + x == Token(s, i) + rest;
      ReadsToken(s, i, rest);
      ReadsBody(s, i + 1, x);
      assert s[i..] == [s[i]] + s[i + 1..];
    }
  }

  lemma ClosesString(x: Text)
    ensures ReadString([QUOTE] + x) == Some(([], x))
  {
    assert ([QUOTE] + x)[1..] == x;
  }

  /** A printed string is read back, whatever follows. */
  lemma ReadsQuote(s: Text, x: Text)
    ensures (Quote(s) + x)[0] == 34 && ReadString((Quote(s) + x)[1..]) == Some((s, x))
  {
    ReadsBody(s, 0, x);
    assert (Quote(s) + x)[1..] == Body(s, 0) + [QUOTE] + x;
    assert s[0..] == s;
  }

  lemma QuoteUnique(s: Text, x: Text, t: Text, y: Text)
    requires Quote(s) + x == Quote(t) + y
    ensures s == t && x == y
  {
    hide Quote, ReadString;
    ReadsQuote(s, x);
    ReadsQuote(t, y);
  }

  lemma {:induction false} NumberEnds(a: Text, x: Text)
    requires (forall i :: 0 <= i < |a| ==> IsNumberUnit(a[i])) && IsEnd(x)
    ensures NumberLength(a + x) == |a|
  {
    if a == [] {
      assert a + x == x;
    } else {
      assert (a + x)[0] == a[0];
      assert (a + x)[1..] == a[1..] + x;
      NumberEnds(a[1..], x);
    }
  }

  /** The first character of a printed value. */
  lemma FirstUnit(v: Json)
    requires Printable(v)
    ensures Print(v) != [] && Print(v)[0] != 93 && Print(v)[0] != 125 && !IsEnd(Print(v))
  {
  }

  lemma ReadsLeaf(v: Json, x: Text)
    requires Printable(v) && IsEnd(x) && !v.Array? && !v.Object?
    ensures Read(Print(v) + x) == Some((v, x))
  {
    var text := Print(v) + x;
    SuffixAfter(Print(v), x);
    match v {
      case Number(digits) =>
        NumberEnds(digits, x);
        assert text[0] == digits[0];
        NoWord(text);
      case String(s) =>
        hide Quote;
        ReadsQuote(s, x);
        NoWord(text);
      case _ =>
    }
  }

  lemma ReadsContainer(open: Unit, inside: Text, x: Text)
    requires open == 91 || open == 123
    requires inside != [] && inside[0] != 93 && inside[0] != 125
    ensures var text := [open] + inside + x;
            && (open == 91 && ReadItems(inside + x).Some?
                ==> var (items, rest) := ReadItems(inside + x).value; Read(text) == Some((Array(items), rest)))
            && (open == 123 && ReadMembers(inside + x).Some?
                ==> var (members, rest) := ReadMembers(inside + x).value; Read(text) == Some((Object(members), rest)))
  {
    hide ReadItems, ReadMembers;
    var text := [open] + inside + x;
    assert text[0] == open && text[1] == inside[0] && text[1..] == inside + x;
    NoWord(text);
  }

  /** A text that starts with no letter starts with no word. */
  lemma NoWord(text: Text)
    requires text != [] && text[0] !in {110, 116, 102}
    ensures !Starts(text, [110, 117, 108, 108]) && !Starts(text, [116, 114, 117, 101])
    ensures !Starts(text, [102, 97, 108, 115, 101])
  {
    assert |text| >= 4 ==> text[..4][0] == text[0];
    assert |text| >= 5 ==> text[..5][0] == text[0];
  }

  lemma EmptyContainers(x: Text)
    ensures Read([91, 93] + x) == Some((Array([]), x)) && Read([123, 125] + x) == Some((Object([]), x))
  {
    NoWord([91, 93] + x);
    NoWord([123, 125] + x);
    assert ([91, 93] + x)[2..] == x && ([123, 125] + x)[2..] == x;
  }

  /** A printed value, followed by an end, is read back with nothing more and nothing less. */
  lemma {:induction false} ReadInvertsPrint(v: Json, x: Text)
    requires Printable(v) && IsEnd(x)
    ensures Read(Print(v) + x) == Some((v, x))
    decreases v
  {
    hide Read, ReadItems, ReadMembers;
    match v {
      case Array(items) =>
        if items == [] {
          EmptyContainers(x);
          assert Print(v) == [91, 93];
        } else {
          ReadsItems(items, x);
          ItemsText(items, x);
          ReadsContainer(91, PrintItems(items), x);
        }
      case Object(members) =>
        if members == [] {
          EmptyContainers(x);
          assert Print(v) == [123, 125];
        } else {
          ReadsMembers(members, x);
          MembersText(members, x);
          ReadsContainer(123, PrintMembers(members), x);
        }
      case _ =>
        ReadsLeaf(v, x);
    }
  }

  /** The text behind the first item. */
  function Tail(items: seq<Json>, x: Text): Text
    requires items != []
  {
    if |items| == 1 then [CLOSE_ARRAY] + x else [COMMA] + (PrintItems(items[1..]) + x)
  }

  lemma ItemsText(items: seq<Json>, x: Text)
    requires items != [] && Printable(items[0])
    ensures PrintItems(items) + x == Print(items[0]) + Tail(items, x) && IsEnd(Tail(items, x))
    ensures PrintItems(items) != [] && PrintItems(items)[0] != 93 && PrintItems(items)[0] != 125
  {
    var value, comma, rest := Print(items[0]), if |items| == 1 then [] else [COMMA], PrintItems(items[1..]);
    assert PrintItems(items) == value + comma + rest;
    assert |items| == 1 ==> rest == [CLOSE_ARRAY];
    FirstUnit(items[0]);
    hide Print, PrintItems;
    Regroup(value, comma, rest);
    Regroup(value, comma + rest, x);
    Regroup(comma, rest, x);
  }

  lemma {:induction false} ReadsItems(items: seq<Json>, x: Text)
    requires items != [] && forall item :: item in items ==> Printable(item)
    ensures ReadItems(PrintItems(items) + x) == Some((items, x))
    decreases items
  {
    hide Print, PrintItems, Printable, Read, IsEnd;
    var item, tail := items[0], Tail(items, x);
    assert item in items;
    ItemsText(items, x);
    ReadInvertsPrint(item, tail);
    if |items| == 1 {
      assert items == [item];
      assert tail[1..] == x;
    } else {
      ReadsItems(items[1..], x);
      assert tail[1..] == PrintItems(items[1..]) + x;
      assert items == [item] + items[1..];
    }
  }

  /** The text behind the first member. */
  function MemberTail(members: seq<Member>, x: Text): Text
    requires members != []
  {
    if |members| == 1 then [CLOSE_OBJECT] + x else [COMMA] + (PrintMembers(members[1..]) + x)
  }

  lemma MemberParts(key: Text, value: Text, comma: Text, rest: Text, x: Text)
    ensures key + [COLON] + value + comma + rest + x == key + ([COLON] + (value + (comma + rest + x)))
  {
    Regroup(key + [COLON] + value, comma, rest);
    Regroup(key + [COLON] + value, comma + rest, x);
    Regroup(key + [COLON], value, comma + rest + x);
    Regroup(key, [COLON], value + (comma + rest + x));
  }

  lemma MembersText(members: seq<Member>, x: Text)
    requires members != []
    ensures PrintMembers(members) + x ==
            Quote(members[0].key) + ([COLON] + (Print(members[0].value) + MemberTail(members, x)))
    ensures IsEnd(MemberTail(members, x))
    ensures PrintMembers(members) != [] && PrintMembers(members)[0] == QUOTE
  {
    var key, value, comma, rest := Quote(members[0].key), Print(members[0].value),
      if |members| == 1 then [] else [COMMA], PrintMembers(members[1..]);
    assert PrintMembers(members) == key + [COLON] + value + comma + rest;
    assert |members| == 1 ==> rest == [CLOSE_OBJECT];
    assert key[0] == QUOTE;
    hide Quote, Print, PrintMembers;
    Regroup(comma, rest, x);
    MemberParts(key, value, comma, rest, x);
  }

  lemma {:induction false} ReadsMembers(members: seq<Member>, x: Text)
    requires members != [] && forall m :: m in members ==> Printable(m.value)
    ensures ReadMembers(PrintMembers(members) + x) == Some((members, x))
    decreases members
  {
    hide Print, PrintMembers, Printable, Read, ReadMember, IsEnd, Quote;
    var m, tail := members[0], MemberTail(members, x);
    assert m in members;
    MembersText(members, x);
    ReadInvertsPrint(m.value, tail);
    ReadsMember(m, tail);
    if |members| == 1 {
      assert members == [m];
      assert tail[1..] == x;
    } else {
      ReadsMembers(members[1..], x);
      assert tail[1..] == PrintMembers(members[1..]) + x;
      assert members == [m] + members[1..];
    }
  }

  lemma ReadsMember(m: Member, x: Text)
    requires Read(Print(m.value) + x) == Some((m.value, x))
    ensures ReadMember(Quote(m.key) + ([COLON] + (Print(m.value) + x))) == Some((m, x))
  {
    hide Read, Print, ReadString, Quote;
    var value := Print(m.value) + x;
    ReadsQuote(m.key, [COLON] + value);
    assert ([COLON] + value)[1..] == value;
  }

  /** A printed value followed by an end can be read in one way only. */
  lemma PrintUnique(v: Json, x: Text, w: Json, y: Text)
    requires Printable(v) && Printable(w) && IsEnd(x) && IsEnd(y)
    requires Print(v) + x == Print(w) + y
    ensures v == w && x == y
  {
    hide Print, Read;
    ReadInvertsPrint(v, x);
    ReadInvertsPrint(w, y);
  }

  // The fingerprint

  /** Numbers anywhere in the value are printed numbers. */
  predicate NumbersValid(v: Json) {
    match v
    case Number(digits) => IsNumberText(digits)
    case Array(items) => forall item :: item in items ==> NumbersValid(item)
    case Object(members) => forall m :: m in members ==> NumbersValid(m.value)
    case _ => true
  }

  lemma {:induction false} StableIsPrintable(v: Json)
    requires WellFormed(v) && NumbersValid(v)
    ensures Printable(Stable(v))
    decreases v
  {
    match v {
      case Array(items) =>
        forall i | 0 <= i < |items|
          ensures Printable(StableItems(items)[i])
        {
          assert items[i] in items;
          StableIsPrintable(items[i]);
        }
      case Object(members) =>
        var a := StableMembers(members);
        StableKeepsKeys(members);
        OrderedKeeps(a);
        forall i | 0 <= i < |members|
          ensures Printable(a[i].value)
        {
          assert members[i] in members;
          StableIsPrintable(members[i].value);
        }
        forall m | m in Ordered(a)
          ensures Printable(m.value)
        {
          var i :| 0 <= i < |a| && a[i] == m;
        }
      case _ =>
    }
  }

  /** The text that `fingerprint` hashes. */
  function Content(v: Json): Text {
    match v
    case Buffer(bytes) => Hex(bytes)
    case Array(_) => Print(Stable(v))
    case Object(_) => Print(Stable(v))
    case Null => []
    case Bool(b) => if b then TRUE_TEXT else FALSE_TEXT
    case Number(digits) => digits
    case String(text) => text
  }

  /** The hashed text of an object or array is JSON text of its canonical form. */
  lemma ContentReads(v: Json)
    requires WellFormed(v) && NumbersValid(v) && (v.Array? || v.Object?)
    ensures Read(Content(v)) == Some((Stable(v), []))
  {
    hide Stable, Print, Read, WellFormed, NumbersValid;
    StableIsPrintable(v);
    ReadInvertsPrint(Stable(v), []);
    assert Print(Stable(v)) + [] == Print(Stable(v));
  }

  /** Two objects or arrays hash the same text exactly when they agree up to key order at every depth. */
  lemma ContentIffSame(v: Json, w: Json)
    requires WellFormed(v) && WellFormed(w) && NumbersValid(v) && NumbersValid(w)
    requires (v.Array? || v.Object?) && (w.Array? || w.Object?)
    ensures Content(v) == Content(w) <==> SameUpToOrder(v, w)
  {
    StableIsPrintable(v);
    StableIsPrintable(w);
    StableIffSame(v, w);
    if Content(v) == Content(w) {
      assert Print(Stable(v)) + [] == Print(Stable(w)) + [];
      PrintUnique(Stable(v), [], Stable(w), []);
    }
  }

  predicate IsContainer(v: Json) {
    v.Array? || v.Object?
  }

  /** When two values that are not containers are hashed as the same text. */
  predicate LeavesAlike(v: Json, w: Json) {
    match v
    case Null => w.Null? || w == String([]) || w == Buffer([])
    case Bool(b) => w == v || w == String(if b then TRUE_TEXT else FALSE_TEXT)
    case Number(digits) => w == v || w == String(digits) || (w.Buffer? && Hex(w.bytes) == digits)
    case Buffer(bytes) =>
      w == v || w == String(Hex(bytes)) || (bytes == [] && w.Null?) || (w.Number? && w.digits == Hex(bytes))
    case String(text) =>
      || w == v || (w.Null? && text == []) || (w.Buffer? && text == Hex(w.bytes)) || (w.Number? && text == w.digits)
      || (w.Bool? && text == if w.b then TRUE_TEXT else FALSE_TEXT)
    case _ => false
  }

  /** When two values are hashed as the same text, by their kinds. */
  predicate HashedAlike(v: Json, w: Json) {
    if IsContainer(v) && IsContainer(w) then SameUpToOrder(v, w)
    else if IsContainer(v) then w == String(Print(Stable(v)))
    else if IsContainer(w) then v == String(Print(Stable(w)))
    else LeavesAlike(v, w)
  }

  predicate IsHexUnit(c: Unit) {
    48 <= c <= 57 || 97 <= c <= 102
  }

  lemma {:induction false} HexUnits(bytes: seq<Byte>)
    ensures forall i :: 0 <= i < |Hex(bytes)| ==> IsHexUnit(Hex(bytes)[i])
    ensures Hex(bytes) == [] <==> bytes == []
  {
    if bytes != [] {
      HexUnits(bytes[1..]);
    }
  }

  lemma {:induction false} HexInjective(a: seq<Byte>, b: seq<Byte>)
    requires Hex(a) == Hex(b)
    ensures a == b
  {
    if a != [] && b != [] {
      assert Hex(a)[0] == Hex(b)[0] && Hex(a)[1] == Hex(b)[1] && Hex(a)[2..] == Hex(b)[2..];
      assert Hex(a)[2..] == Hex(a[1..]) && Hex(b)[2..] == Hex(b[1..]);
      assert HexDigit(a[0] / 16) == HexDigit(b[0] / 16);
      assert HexDigit(a[0] % 16) == HexDigit(b[0] % 16);
      HexInjective(a[1..], b[1..]);
      assert a == [a[0]] + a[1..] && b == [b[0]] + b[1..];
    }
  }

  /** The text of a leaf that is no string never starts like a container's. */
  lemma LeafStart(w: Json)
    requires NumbersValid(w) && !IsContainer(w) && !w.String?
    ensures Content(w) == [] || (Content(w)[0] != OPEN_ARRAY && Content(w)[0] != OPEN_OBJECT)
  {
    if w.Buffer? {
      HexUnits(w.bytes);
      assert w.bytes != [] ==> IsHexUnit(Hex(w.bytes)[0]);
    }
    hide Hex;
  }

  lemma ContainerStart(v: Json)
    requires IsContainer(v)
    ensures Content(v) != [] && (Content(v)[0] == OPEN_ARRAY || Content(v)[0] == OPEN_OBJECT)
  {
    hide FromEntries, Sort, PrintItems, PrintMembers;
  }

  lemma LeafContents(v: Json, w: Json)
    requires NumbersValid(v) && NumbersValid(w) && !IsContainer(v) && !IsContainer(w)
    ensures Content(v) == Content(w) <==> LeavesAlike(v, w)
  {
    if v.Buffer? {
      HexUnits(v.bytes);
      HexIsNoWord(v.bytes);
    }
    if w.Buffer? {
      HexUnits(w.bytes);
      HexIsNoWord(w.bytes);
    }
    if v.Buffer? && w.Buffer? && Content(v) == Content(w) {
      HexInjective(v.bytes, w.bytes);
    }
    assert TRUE_TEXT[0] == 116 && FALSE_TEXT[0] == 102;
    hide Hex;
  }

  lemma HexIsNoWord(bytes: seq<Byte>)
    ensures Hex(bytes) != TRUE_TEXT && Hex(bytes) != FALSE_TEXT
  {
    HexUnits(bytes);
    assert TRUE_TEXT[0] == 116 && FALSE_TEXT[2] == 108;
    hide Hex;
  }

  /**
   The whole answer: two values are hashed as the same text exactly when they are containers that agree
   up to key order, a container and the string of its text, or leaves that print alike.
   */
  lemma ContentIff(v: Json, w: Json)
    requires WellFormed(v) && WellFormed(w) && NumbersValid(v) && NumbersValid(w)
    ensures Content(v) == Content(w) <==> HashedAlike(v, w)
  {
    hide Stable, Print, WellFormed, NumbersValid, SameUpToOrder, LeavesAlike;
    if IsContainer(v) && IsContainer(w) {
      ContentIffSame(v, w);
    } else if IsContainer(v) {
      ContainerStart(v);
      if !w.String? {
        LeafStart(w);
      }
    } else if IsContainer(w) {
      ContainerStart(w);
      if !v.String? {
        LeafStart(v);
      }
    } else {
      LeafContents(v, w);
    }
  }

  /** Between an object and a string the text tells nothing: the empty object and the string "{}" agree. */
  lemma ContentMixesKinds()
    ensures Content(Object([])) == Content(String([OPEN_OBJECT, CLOSE_OBJECT]))
    ensures !SameUpToOrder(Object([]), String([OPEN_OBJECT, CLOSE_OBJECT]))
  {
    assert StableMembers([]) == [];
    assert Ordered([]) == [];
    assert Stable(Object([])) == Object([]);
    assert PrintMembers([]) == [CLOSE_OBJECT];
  }
}
