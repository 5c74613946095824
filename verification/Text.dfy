/** Strings as the source takes them apart and puts them together: ASCII text only. */
module Text {
  import opened Wrappers

  // ----- decimal numbers -----

  predicate IsDigit(c: char) { '0' <= c <= '9' }

  predicate AllDigits(s: string) { forall i :: 0 <= i < |s| ==> IsDigit(s[i]) }

  function DigitOf(n: nat): char
    requires n < 10
  {
    "0123456789"[n]
  }

  function DigitValue(c: char): nat
    requires IsDigit(c)
  {
    c as int - '0' as int
  }

  function Value(s: string): nat
    requires AllDigits(s)
  {
    if s == [] then 0 else 10 * Value(s[..|s| - 1]) + DigitValue(s[|s| - 1])
  }

  function Decimal(n: nat): (s: string)
    ensures s != [] && AllDigits(s)
  {
    if n < 10 then [DigitOf(n)] else Decimal(n / 10) + [DigitOf(n % 10)]
  }

  function Zeros(k: nat): string { seq(k, _ => '0') }

  /** `{n:0width}` for a number that is not negative. */
  function Pad(n: nat, width: nat): (s: string)
    ensures s != [] && AllDigits(s)
  {
    var digits := Decimal(n);
    if |digits| >= width then digits else Zeros(width - |digits|) + digits
  }

  /** `{n:0width}`: the sign counts towards the width. */
  function PadSigned(n: int, width: nat): string {
    if n >= 0 then Pad(n, width) else "-" + Pad(-n, if width > 0 then width - 1 else 0)
  }

  lemma {:induction false} DecimalValue(n: nat)
    ensures Value(Decimal(n)) == n
  {
    if n >= 10 {
      DecimalValue(n / 10);
      assert Decimal(n)[..|Decimal(n)| - 1] == Decimal(n / 10);
    }
  }

  lemma {:induction false} LeadingZeros(k: nat, s: string)
    requires AllDigits(s)
    ensures AllDigits(Zeros(k) + s) && Value(Zeros(k) + s) == Value(s)
    decreases |s|, k
  {
    if s != [] {
      assert (Zeros(k) + s)[..|Zeros(k) + s| - 1] == Zeros(k) + s[..|s| - 1];
      LeadingZeros(k, s[..|s| - 1]);
    } else if k > 0 {
      assert (Zeros(k) + s)[..k - 1] == Zeros(k - 1) + s;
      LeadingZeros(k - 1, s);
    }
  }

  lemma {:induction false} PadValue(n: nat, width: nat)
    ensures Value(Pad(n, width)) == n
  {
    DecimalValue(n);
    if |Decimal(n)| < width { LeadingZeros(width - |Decimal(n)|, Decimal(n)); }
  }

  function ParseDigits(s: string): Option<nat> {
    if s != [] && AllDigits(s) then Some(Value(s)) else None
  }

  /** `str::parse::<i32>` */
  function ParseI32(s: string): Option<int> {
    if s == [] then None
    else
      var magnitude := ParseDigits(if s[0] == '+' || s[0] == '-' then s[1..] else s);
      if magnitude.None? then None
      else
        var value := (if s[0] == '-' then -1 else 1) * magnitude.value;
        if -0x8000_0000 <= value < 0x8000_0000 then Some(value) else None
  }

  /** `str::parse::<u32>` */
  function ParseU32(s: string): Option<nat> {
    if s == [] then None
    else
      var magnitude := ParseDigits(if s[0] == '+' then s[1..] else s);
      if magnitude.Some? && magnitude.value < 0x1_0000_0000 then magnitude else None
  }

  lemma {:induction false} ParsePadded(n: nat, width: nat)
    ensures n < 0x1_0000_0000 ==> ParseU32(Pad(n, width)) == Some(n)
    ensures n < 0x8000_0000 ==> ParseI32(Pad(n, width)) == Some(n)
  {
    PadValue(n, width);
    assert IsDigit(Pad(n, width)[0]);
  }

  /** A padded number is its sign, if it is negative, and its digits: zeros fill it up to the width and no further. */
  lemma {:induction false} PaddedIsExact(n: int, width: nat) returns (digits: string)
    ensures PadSigned(n, width) == (if n < 0 then ['-'] else []) + digits
    ensures digits != "" && AllDigits(digits) && Value(digits) == (if n < 0 then -n else n)
    ensures |PadSigned(n, width)| >= width
    ensures |PadSigned(n, width)| > width ==> digits[0] != '0' || |digits| == 1
  {
    var magnitude: nat := if n < 0 then -n else n;
    var room: nat := if n >= 0 then width else if width > 0 then width - 1 else 0;
    digits := Pad(magnitude, room);
    PadValue(magnitude, room);
    DecimalStart(magnitude);
  }

  lemma {:induction false} DecimalStart(n: nat)
    ensures n > 0 ==> Decimal(n)[0] != '0'
    ensures n == 0 ==> |Decimal(n)| == 1
  {
    if n >= 10 { DecimalStart(n / 10); }
  }

  /** Which texts are read as a number, and as which: digits after at most one sign, in the range of the type. */
  lemma {:induction false} ParsedNumbers(digits: string)
    requires digits != "" && AllDigits(digits)
    ensures ParseU32(digits) == ParseU32(['+'] + digits)
    ensures ParseU32(digits) == if Value(digits) <= 4294967295 then Some(Value(digits)) else None
    ensures ParseI32(digits) == ParseI32(['+'] + digits)
    ensures ParseI32(digits) == if Value(digits) <= 2147483647 then Some(Value(digits)) else None
    ensures var value: int := Value(digits);
      ParseI32(['-'] + digits) == if -value >= -2147483648 then Some(-value) else None
    ensures ParseU32(['-'] + digits) == None
  {
    assert IsDigit(digits[0]);
    assert (['+'] + digits)[1..] == digits && (['-'] + digits)[1..] == digits;
    assert !IsDigit((['-'] + digits)[0]);
  }

  /** Nothing else is read as a number. */
  lemma {:induction false} OnlyNumbersParse(s: string) returns (digits: string)
    ensures digits == if s != "" && s[0] in "+-" then s[1..] else s
    ensures ParseI32(s).Some? ==> digits != "" && AllDigits(digits)
    ensures ParseU32(s).Some? ==> digits != "" && AllDigits(digits)
  {
    digits := if s != "" && s[0] in "+-" then s[1..] else s;
  }

  // ----- splitting and joining -----

  /** The index of the first `c`, or the length. */
  function Find(s: string, c: char): (i: nat)
    ensures i <= |s| && (i < |s| ==> s[i] == c) && c !in s[..i]
  {
    if s == [] || s[0] == c then 0
    else
      var i := Find(s[1..], c);
      assert s[..1 + i] == [s[0]] + s[1..][..i];
      1 + i
  }

  /** `str::split(c)` */
  function Split(s: string, c: char): (parts: seq<string>)
    ensures |parts| > 0
    ensures forall i :: 0 <= i < |parts| ==> c !in parts[i]
    decreases |s|
  {
    var i := Find(s, c);
    if i == |s| then [s] else [s[..i]] + Split(s[i + 1..], c)
  }

  /** `parts.join(c)` */
  function Join(parts: seq<string>, c: char): string {
    if parts == [] then []
    else if |parts| == 1 then parts[0]
    else parts[0] + [c] + Join(parts[1..], c)
  }

  lemma {:induction false} FindAfter(a: string, c: char, rest: string)
    requires c !in a
    ensures Find(a + [c] + rest, c) == |a| && Find(a, c) == |a|
  {
    if a != [] {
      assert a[0] in a && a[0] != c;
      assert (a + [c] + rest)[1..] == a[1..] + [c] + rest;
      FindAfter(a[1..], c, rest);
    }
  }

  lemma {:induction false} SplitCons(a: string, c: char, rest: string)
    requires c !in a
    ensures Split(a + [c] + rest, c) == [a] + Split(rest, c)
    ensures Split(a, c) == [a]
  {
    FindAfter(a, c, rest);
    assert (a + [c] + rest)[..|a|] == a;
    assert (a + [c] + rest)[|a| + 1..] == rest;
  }

  lemma {:induction false} SplitThree(x: string, y: string, z: string, c: char)
    requires c !in x && c !in y && c !in z
    ensures Split(x + [c] + (y + [c] + z), c) == [x, y, z]
  {
    SplitCons(x, c, y + [c] + z);
    SplitCons(y, c, z);
    SplitCons(z, c, []);
  }

  lemma {:induction false} JoinCons(parts: seq<string>, c: char)
    requires |parts| > 1
    ensures Join(parts, c) == parts[0] + [c] + Join(parts[1..], c)
  {
  }

  /** Splitting undoes joining, for parts that do not hold the separator. */
  lemma {:induction false} SplitJoin(parts: seq<string>, c: char)
    requires parts != [] && forall i :: 0 <= i < |parts| ==> c !in parts[i]
    ensures Split(Join(parts, c), c) == parts
  {
    if |parts| == 1 {
      SplitCons(parts[0], c, []);
      assert parts == [parts[0]];
    } else {
      JoinCons(parts, c);
      SplitJoin(parts[1..], c);
      SplitCons(parts[0], c, Join(parts[1..], c));
      assert parts == [parts[0]] + parts[1..];
    }
  }

  // ----- trimming -----

  predicate IsSpace(c: char) { c == ' ' || '\t' <= c <= '\r' }

  lemma {:induction false} SpacesAreSix(c: char)
    ensures IsSpace(c) <==> c in "\t\n\U{B}\U{C}\r "
  {
    var spaces := "\t\n\U{B}\U{C}\r ";
    assert spaces[0] == '\t' && spaces[1] == '\n' && spaces[2] == '\U{B}';
    assert spaces[3] == '\U{C}' && spaces[4] == '\r' && spaces[5] == ' ';
  }

  function TrimStart(s: string): string {
    if s != [] && IsSpace(s[0]) then TrimStart(s[1..]) else s
  }

  function TrimEnd(s: string): string {
    if s != [] && IsSpace(s[|s| - 1]) then TrimEnd(s[..|s| - 1]) else s
  }

  function Trim(s: string): string { TrimEnd(TrimStart(s)) }

  lemma {:induction false} NothingToTrim(s: string)
    requires s != [] && !IsSpace(s[0]) && !IsSpace(s[|s| - 1])
    ensures Trim(s) == s
  {
  }

  /** Trimming takes spaces off both ends and leaves none there. */
  lemma {:induction false} TrimmedEnds(s: string) returns (before: string, after: string)
    ensures s == before + Trim(s) + after
    ensures (forall c :: c in before ==> IsSpace(c)) && forall c :: c in after ==> IsSpace(c)
    ensures Trim(s) != "" ==> !IsSpace(Trim(s)[0]) && !IsSpace(Trim(s)[|Trim(s)| - 1])
  {
    before := StartTrimmed(s);
    after := EndTrimmed(TrimStart(s));
  }

  lemma {:induction false} StartTrimmed(s: string) returns (before: string)
    ensures s == before + TrimStart(s) && forall c :: c in before ==> IsSpace(c)
    ensures TrimStart(s) != "" ==> !IsSpace(TrimStart(s)[0])
    decreases |s|
  {
    if s != "" && IsSpace(s[0]) {
      before := StartTrimmed(s[1..]);
      before := [s[0]] + before;
      assert s == [s[0]] + s[1..];
    } else {
      before := "";
    }
  }

  lemma {:induction false} EndTrimmed(s: string) returns (after: string)
    ensures s == TrimEnd(s) + after && forall c :: c in after ==> IsSpace(c)
    ensures TrimEnd(s) != "" ==> !IsSpace(TrimEnd(s)[|TrimEnd(s)| - 1])
    decreases |s|
  {
    if s != "" && IsSpace(s[|s| - 1]) {
      after := EndTrimmed(s[..|s| - 1]);
      after := after + [s[|s| - 1]];
      assert s == s[..|s| - 1] + [s[|s| - 1]];
    } else {
      after := "";
    }
  }
}
