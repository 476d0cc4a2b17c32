/** The parts of Go's `strings` and `strconv` packages that the modelled code
    relies on. A string is a sequence of code points. */
module GoText {

  datatype Option<+T> = None | Some(value: T)

  datatype Result<+T, +E> = Ok(value: T) | Err(error: E)

  predicate HasPrefix(s: string, prefix: string) {
    prefix <= s
  }

  predicate HasSuffix(s: string, suffix: string) {
    |suffix| <= |s| && s[|s| - |suffix|..] == suffix
  }

  function TrimPrefix(s: string, prefix: string): string {
    if HasPrefix(s, prefix) then s[|prefix|..] else s
  }

  function TrimSuffix(s: string, suffix: string): string {
    if HasSuffix(s, suffix) then s[..|s| - |suffix|] else s
  }

  /** How often `c` occurs in `s` (`strings.Count` with a one-character pattern). */
  function Count(s: string, c: char): nat {
    if s == "" then 0 else (if s[0] == c then 1 else 0) + Count(s[1..], c)
  }

  lemma {:induction false} CountConcat(a: string, b: string, c: char)
    ensures Count(a + b, c) == Count(a, c) + Count(b, c)
  {
    if a == "" {
      assert a + b == b;
    } else {
      assert (a + b)[1..] == a[1..] + b;
      CountConcat(a[1..], b, c);
    }
  }

  /** It is the number of positions with that character. */
  lemma {:induction false} CountIsNumberOfPlaces(s: string, c: char)
    ensures Count(s, c) == |set i | 0 <= i < |s| && s[i] == c|
  {
    var places := set i | 0 <= i < |s| && s[i] == c;
    if s != "" {
      var front, last := s[..|s| - 1], |s| - 1;
      CountIsNumberOfPlaces(front, c);
      CountConcat(front, [s[last]], c);
      assert s == front + [s[last]] && Count([s[last]], c) == (if s[last] == c then 1 else 0) + Count("", c);
      var before := set i | 0 <= i < |front| && front[i] == c;
      assert places == before + if s[last] == c then {last} else {};
    }
  }

  // ----- Split and Join

  function Join(parts: seq<string>, sep: char): string {
    if parts == [] then ""
    else if |parts| == 1 then parts[0]
    else parts[0] + [sep] + Join(parts[1..], sep)
  }

  /** The pieces of a text that starts with c, given the pieces of what follows. */
  function AddFirst(c: char, sep: char, rest: seq<string>): seq<string>
    requires rest != []
  {
    if c == sep then [""] + rest else [[c] + rest[0]] + rest[1..]
  }

  lemma JoinAddFirst(c: char, sep: char, rest: seq<string>)
    requires rest != []
    ensures Join(AddFirst(c, sep, rest), sep) == [c] + Join(rest, sep)
  {
    var parts := AddFirst(c, sep, rest);
    if c == sep {
      assert parts[1..] == rest;
      assert "" + [sep] + Join(rest, sep) == [c] + Join(rest, sep);
    } else {
      assert parts[1..] == rest[1..];
    }
  }

  /** `strings.Split`: cut at every separator; joining the pieces gives the input back. */
  function Split(s: string, sep: char): (parts: seq<string>)
    ensures parts != []
    ensures Join(parts, sep) == s
  {
    if s == "" then [""]
    else
      JoinAddFirst(s[0], sep, Split(s[1..], sep));
      AddFirst(s[0], sep, Split(s[1..], sep))
  }

  predicate NoneContain(parts: seq<string>, c: char) {
    forall i :: 0 <= i < |parts| ==> c !in parts[i]
  }

  /** The pieces never contain the separator. */
  lemma {:induction false} SplitPieces(s: string, sep: char)
    ensures NoneContain(Split(s, sep), sep)
  {
    if s != "" {
      SplitPieces(s[1..], sep);
    }
  }

  lemma {:induction false} SplitNoSep(s: string, sep: char)
    requires sep !in s
    ensures Split(s, sep) == [s]
  {
    if s != "" {
      SplitNoSep(s[1..], sep);
      assert [s[0]] + s[1..] == s;
    }
  }

  lemma AddFirstConcat(c: char, sep: char, r: seq<string>, t: seq<string>)
    requires r != []
    ensures AddFirst(c, sep, r + t) == AddFirst(c, sep, r) + t
  {
    assert (r + t)[1..] == r[1..] + t;
  }

  lemma {:induction false} SplitConcat(a: string, b: string, sep: char)
    ensures Split(a + [sep] + b, sep) == Split(a, sep) + Split(b, sep)
  {
    var s := a + [sep] + b;
    if a == "" {
      assert s[1..] == b;
    } else {
      assert s[1..] == a[1..] + [sep] + b;
      SplitConcat(a[1..], b, sep);
      var r, t := Split(a[1..], sep), Split(b, sep);
      AddFirstConcat(a[0], sep, r, t);
      assert s[0] == a[0];
      assert Split(s, sep) == AddFirst(a[0], sep, r + t);
      assert Split(a, sep) == AddFirst(a[0], sep, r);
    }
  }

  /** Splitting undoes joining for every non-empty list of separator-free parts;
      with the contract of Split this makes the two functions inverse bijections. */
  lemma {:induction false} SplitJoin(parts: seq<string>, sep: char)
    requires parts != [] && NoneContain(parts, sep)
    ensures Split(Join(parts, sep), sep) == parts
  {
    SplitNoSep(parts[0], sep);
    if |parts| > 1 {
      SplitJoin(parts[1..], sep);
      SplitConcat(parts[0], Join(parts[1..], sep), sep);
    }
  }

  /** The first piece is what stands before the first separator. */
  lemma FirstPieceIff(s: string, piece: string, sep: char)
    ensures Split(s, sep)[0] == piece <==> sep !in piece && (s == piece || HasPrefix(s, piece + [sep]))
  {
    var pieces := Split(s, sep);
    SplitPieces(s, sep);
    if pieces[0] == piece && |pieces| > 1 {
      assert s == piece + [sep] + Join(pieces[1..], sep);
    }
    if sep !in piece {
      SplitNoSep(piece, sep);
      if HasPrefix(s, piece + [sep]) {
        var rest := s[|piece| + 1..];
        assert s == piece + [sep] + rest;
        SplitConcat(piece, rest, sep);
      }
    }
  }

  lemma SplitInjective(a: string, b: string, sep: char)
    requires Split(a, sep) == Split(b, sep)
    ensures a == b
  {
  }

  lemma JoinTwo(a: string, b: string, sep: char)
    ensures Join([a, b], sep) == a + [sep] + b
  {
    assert [a, b][1..] == [b];
  }

  lemma {:induction false} JoinConcat(a: seq<string>, b: seq<string>, sep: char)
    requires a != [] && b != []
    ensures Join(a + b, sep) == Join(a, sep) + [sep] + Join(b, sep)
  {
    if |a| == 1 {
      assert (a + b)[1..] == b;
    } else {
      assert (a + b)[1..] == a[1..] + b;
      JoinConcat(a[1..], b, sep);
    }
  }

  // ----- TrimSpace

  /** `unicode.IsSpace`. */
  predicate IsSpace(c: char) {
    || '\t' <= c <= '\r' || c == ' ' || c == '\U{85}' || c == '\U{A0}' || c == '\U{1680}'
    || '\U{2000}' <= c <= '\U{200A}' || c == '\U{2028}' || c == '\U{2029}'
    || c == '\U{202F}' || c == '\U{205F}' || c == '\U{3000}'
  }

  function TrimLeft(s: string): string {
    if s != "" && IsSpace(s[0]) then TrimLeft(s[1..]) else s
  }

  function TrimRight(s: string): string {
    if s != "" && IsSpace(s[|s| - 1]) then TrimRight(s[..|s| - 1]) else s
  }

  function TrimSpace(s: string): string {
    TrimRight(TrimLeft(s))
  }

  predicate Trimmed(s: string) {
    s == "" || (!IsSpace(s[0]) && !IsSpace(s[|s| - 1]))
  }

  /** Exactly the strings without outer white space are left alone by TrimSpace. */
  lemma {:induction false} TrimmedIsFixed(s: string)
    ensures TrimSpace(s) == s <==> Trimmed(s)
  {
    TrimSpaceIsTrimmed(s);
  }

  lemma {:induction false} TrimLeftDropsPrefix(s: string) returns (k: nat)
    ensures k <= |s| && TrimLeft(s) == s[k..]
    ensures s[k..] == "" || !IsSpace(s[k])
  {
    if s != "" && IsSpace(s[0]) {
      var j := TrimLeftDropsPrefix(s[1..]);
      k := j + 1;
    } else {
      k := 0;
    }
  }

  lemma {:induction false} TrimRightDropsSuffix(s: string) returns (k: nat)
    ensures k <= |s| && TrimRight(s) == s[..k]
    ensures k == 0 || !IsSpace(s[k - 1])
  {
    if s != "" && IsSpace(s[|s| - 1]) {
      k := TrimRightDropsSuffix(s[..|s| - 1]);
      assert s[..|s| - 1][..k] == s[..k];
    } else {
      k := |s|;
    }
  }

  lemma {:induction false} TrimSpaceIsTrimmed(s: string)
    ensures Trimmed(TrimSpace(s))
    ensures forall c :: c in TrimSpace(s) ==> c in s
  {
    var i := TrimLeftDropsPrefix(s);
    var j := TrimRightDropsSuffix(s[i..]);
  }

  predicate AllSpaces(s: string) {
    forall i :: 0 <= i < |s| ==> IsSpace(s[i])
  }

  lemma {:induction false} TrimLeftOfSpaces(spaces: string, s: string)
    requires AllSpaces(spaces) && (s == "" || !IsSpace(s[0]))
    ensures TrimLeft(spaces + s) == s
  {
    if spaces == "" {
      assert spaces + s == s;
    } else {
      assert (spaces + s)[1..] == spaces[1..] + s;
      TrimLeftOfSpaces(spaces[1..], s);
    }
  }

  lemma {:induction false} TrimRightOfSpaces(s: string, spaces: string)
    requires AllSpaces(spaces) && (s == "" || !IsSpace(s[|s| - 1]))
    ensures TrimRight(s + spaces) == s
  {
    if spaces == "" {
      assert s + spaces == s;
    } else {
      var front := spaces[..|spaces| - 1];
      assert (s + spaces)[..|s + spaces| - 1] == s + front;
      assert (s + spaces)[|s + spaces| - 1] == spaces[|spaces| - 1];
      TrimRightOfSpaces(s, front);
    }
  }

  /** Trimming removes the white space around a text and nothing else. */
  lemma TrimAround(before: string, s: string, after: string)
    requires AllSpaces(before) && AllSpaces(after) && s != "" && Trimmed(s)
    ensures TrimSpace(before + s + after) == s
  {
    assert before + s + after == before + (s + after);
    assert (s + after)[0] == s[0];
    TrimLeftOfSpaces(before, s + after);
    TrimRightOfSpaces(s, after);
  }

  // ----- Decimal numbers

  const INT64_MIN: int := -0x8000_0000_0000_0000
  const INT64_MAX: int := 0x7fff_ffff_ffff_ffff

  /** Go's `int` on the platforms envbox runs on. */
  predicate IsInt64(n: int) {
    INT64_MIN <= n <= INT64_MAX
  }

  predicate IsDigit(c: char) {
    '0' <= c <= '9'
  }

  predicate AllDigits(s: string) {
    forall i :: 0 <= i < |s| ==> IsDigit(s[i])
  }

  function Digits(n: nat): (s: string)
    ensures s != "" && AllDigits(s)
  {
    var last := [('0' as int + n % 10) as char];
    if n < 10 then last else Digits(n / 10) + last
  }

  function DigitsValue(s: string): nat
    requires AllDigits(s)
  {
    if s == "" then 0
    else 10 * DigitsValue(s[..|s| - 1]) + (s[|s| - 1] as int - '0' as int)
  }

  lemma {:induction false} DigitsValueDigits(n: nat)
    ensures DigitsValue(Digits(n)) == n
  {
    if n >= 10 {
      DigitsValueDigits(n / 10);
      assert Digits(n)[..|Digits(n)| - 1] == Digits(n / 10);
    }
  }

  /** `strconv.Itoa`, which is also what `%d` prints. */
  function Itoa(n: int): string {
    if n < 0 then "-" + Digits(-n) else Digits(n)
  }

  /** `strconv.Atoi`: an optional sign, at least one digit, nothing else, and a
      value that fits a 64-bit integer. */
  function Atoi(s: string): Option<int> {
    var signed := s != "" && (s[0] == '-' || s[0] == '+');
    var digits := if signed then s[1..] else s;
    if digits == "" || !AllDigits(digits) then None
    else
      var v: int := DigitsValue(digits);
      var n := if signed && s[0] == '-' then -v else v;
      if IsInt64(n) then Some(n) else None
  }

  lemma AtoiDigits(n: nat)
    requires IsInt64(n)
    ensures Atoi(Digits(n)) == Some(n)
  {
    DigitsValueDigits(n);
    assert IsDigit(Digits(n)[0]);
  }

  lemma AtoiNegated(n: nat)
    requires IsInt64(0 - n)
    ensures Atoi("-" + Digits(n)) == Some(0 - n)
  {
    var s := "-" + Digits(n);
    DigitsValueDigits(n);
    assert s[0] == '-' && s[1..] == Digits(n);
  }

  /** Parsing undoes printing for every 64-bit integer. */
  lemma AtoiItoa(n: int)
    requires IsInt64(n)
    ensures Atoi(Itoa(n)) == Some(n)
  {
    if n < 0 { AtoiNegated(-n); } else { AtoiDigits(n); }
  }

  /** A number is printed without leading zeros ... */
  lemma {:induction false} DigitsAreCanonical(n: nat)
    ensures |Digits(n)| > 1 ==> Digits(n)[0] != '0'
    ensures n > 0 ==> Digits(n)[0] != '0'
  {
    if n >= 10 {
      DigitsAreCanonical(n / 10);
    }
  }

  /** ... and that is its only such text. */
  lemma {:induction false} CanonicalDigits(s: string)
    requires s != "" && AllDigits(s) && (|s| > 1 ==> s[0] != '0')
    ensures Digits(DigitsValue(s)) == s
    ensures s[0] != '0' ==> DigitsValue(s) > 0
  {
    var front := s[..|s| - 1];
    assert s == front + [s[|s| - 1]];
    if front != "" {
      CanonicalDigits(front);
    }
  }

  function Zeros(k: nat): (s: string)
    ensures |s| == k && AllDigits(s) && forall i :: 0 <= i < k ==> s[i] == '0'
  {
    seq(k, _ => '0')
  }

  lemma {:induction false} ValueOfZeros(k: nat, s: string)
    requires AllDigits(s)
    ensures AllDigits(Zeros(k) + s) && DigitsValue(Zeros(k) + s) == DigitsValue(s)
  {
    var t := Zeros(k) + s;
    if s != "" {
      assert t[..|t| - 1] == Zeros(k) + s[..|s| - 1];
      ValueOfZeros(k, s[..|s| - 1]);
    } else if k > 0 {
      assert t[..|t| - 1] == Zeros(k - 1) + "";
      ValueOfZeros(k - 1, "");
    }
  }

  /** Any digits are leading zeros before the number they stand for. */
  lemma {:induction false} ZerosThenDigits(s: string) returns (k: nat)
    requires s != "" && AllDigits(s)
    ensures s == Zeros(k) + Digits(DigitsValue(s))
  {
    if |s| > 1 && s[0] == '0' {
      var j := ZerosThenDigits(s[1..]);
      k := j + 1;
      assert s == Zeros(1) + s[1..];
      ValueOfZeros(1, s[1..]);
    } else {
      k := 0;
      CanonicalDigits(s);
    }
  }

  /** What Atoi makes of digits, with each of the signs. */
  lemma AtoiOfDigits(digits: string, v: int)
    requires digits != "" && AllDigits(digits) && v == DigitsValue(digits)
    ensures Atoi(digits) == (if IsInt64(v) then Some(v) else None)
    ensures Atoi("+" + digits) == (if IsInt64(v) then Some(v) else None)
    ensures Atoi("-" + digits) == (if IsInt64(-v) then Some(-v) else None)
  {
    assert IsDigit(digits[0]);
    assert ("+" + digits)[1..] == digits && ("-" + digits)[1..] == digits;
  }

  /** The digits, after any leading zeros. */
  function Padded(k: nat, size: nat): (s: string)
    ensures s != "" && AllDigits(s)
  {
    Zeros(k) + Digits(size)
  }

  lemma PaddedValue(k: nat, size: nat)
    ensures DigitsValue(Padded(k, size)) == size
  {
    DigitsValueDigits(size);
    ValueOfZeros(k, Digits(size));
  }

  /** The texts of a number: a sign if it needs or wants one, leading zeros, and its
      printed digits. */
  ghost predicate IsTextOf(s: string, n: int) {
    exists k: nat :: IsPaddedText(s, n, k)
  }

  predicate IsPaddedText(s: string, n: int, k: nat) {
    || (n >= 0 && (s == Padded(k, n) || s == "+" + Padded(k, n)))
    || (n <= 0 && s == "-" + Padded(k, -n))
  }

  /** strconv.Atoi accepts exactly the texts of the 64-bit integers. */
  lemma AtoiIff(s: string, n: int)
    ensures Atoi(s) == Some(n) <==> IsInt64(n) && IsTextOf(s, n)
  {
    if Atoi(s) == Some(n) {
      AcceptedIsText(s, n);
    }
    if IsInt64(n) && IsTextOf(s, n) {
      var k: nat :| IsPaddedText(s, n, k);
      PaddedIsAccepted(s, n, k);
    }
  }

  lemma AcceptedIsText(s: string, n: int)
    requires Atoi(s) == Some(n)
    ensures IsTextOf(s, n)
  {
    var signed := s[0] == '-' || s[0] == '+';
    var digits := if signed then s[1..] else s;
    var k := ZerosThenDigits(digits);
    assert digits == Padded(k, DigitsValue(digits));
    assert signed ==> s == [s[0]] + digits;
    assert IsPaddedText(s, n, k);
  }

  lemma PaddedIsAccepted(s: string, n: int, k: nat)
    requires IsInt64(n) && IsPaddedText(s, n, k)
    ensures Atoi(s) == Some(n)
  {
    var size: nat := if n < 0 then -n else n;
    PaddedValue(k, size);
    SignedIsAccepted(s, n, Padded(k, size), size);
  }

  lemma SignedIsAccepted(s: string, n: int, digits: string, size: nat)
    requires IsInt64(n) && (n == size || n == 0 - size)
    requires digits != "" && AllDigits(digits) && DigitsValue(digits) == size
    requires (n == size && (s == digits || s == "+" + digits)) || (n == 0 - size && s == "-" + digits)
    ensures Atoi(s) == Some(n)
  {
    AtoiOfDigits(digits, size);
  }

  lemma PrintedExamples()
    ensures Itoa(0) == "0" && Itoa(172) == "172" && Itoa(-50) == "-50"
  {
    assert Digits(17) == "17";
  }

  /** A printed number never contains a character that is not a digit or '-'. */
  lemma ItoaAlphabet(n: int)
    ensures Itoa(n) != ""
    ensures forall i :: 0 <= i < |Itoa(n)| ==> IsDigit(Itoa(n)[i]) || Itoa(n)[i] == '-'
    ensures Trimmed(Itoa(n))
  {
    if n < 0 {
      assert forall i :: 1 <= i < |Itoa(n)| ==> Itoa(n)[i] == Digits(-n)[i - 1];
    }
  }
}
