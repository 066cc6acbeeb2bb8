/** Small value types and text helpers shared by the models. */
module Text {

  datatype Option<+T> = None | Some(value: T)

  /** Go's error return: a value, or the fact that the call was refused. */
  datatype Result<+T> = Ok(value: T) | Err

  /** ASCII lower-casing of one character, as strings.ToLower does on the names this system uses. */
  function FoldChar(c: char): char {
    if 'A' <= c <= 'Z' then (c as int + 32) as char else c
  }

  function Fold(s: string): (r: string)
    ensures |r| == |s|
  {
    if s == "" then "" else [FoldChar(s[0])] + Fold(s[1..])
  }

  predicate EqualFold(a: string, b: string) {
    Fold(a) == Fold(b)
  }

  predicate IsDigit(c: char) { '0' <= c <= '9' }

  function Digit(d: nat): char
    requires d < 10
  {
    ('0' as int + d) as char
  }

  /** strconv.Itoa on a non-negative number. */
  function Itoa(n: nat): (s: string)
    ensures |s| > 0
    ensures forall i :: 0 <= i < |s| ==> IsDigit(s[i])
  {
    if n < 10 then [Digit(n)] else Itoa(n / 10) + [Digit(n % 10)]
  }

  /** Reading the digits back; the witness that Itoa is injective. */
  function Atoi(s: string): int {
    if s == "" then 0 else Atoi(s[..|s| - 1]) * 10 + (s[|s| - 1] as int - '0' as int)
  }

  lemma {:induction false} AtoiItoa(n: nat)
    ensures Atoi(Itoa(n)) == n
  {
    if n < 10 {
      assert Itoa(n)[..0] == "";
    } else {
      AtoiItoa(n / 10);
      assert Itoa(n)[..|Itoa(n)| - 1] == Itoa(n / 10);
    }
  }

  /** A whole number as it is written: digits, with no leading zero. */
  predicate IsDecimal(s: string) {
    s != "" && (forall i :: 0 <= i < |s| ==> IsDigit(s[i])) && (|s| > 1 ==> s[0] != '0')
  }

  lemma {:induction false} ItoaDecimal(n: nat)
    ensures IsDecimal(Itoa(n)) && (n > 0 ==> Itoa(n)[0] != '0')
  {
    if n >= 10 {
      ItoaDecimal(n / 10);
      assert Itoa(n)[0] == Itoa(n / 10)[0];
    }
  }

  lemma {:induction false} FoldLower(s: string)
    requires forall i :: 0 <= i < |s| ==> !('A' <= s[i] <= 'Z')
    ensures Fold(s) == s
  {
    if s != "" {
      FoldLower(s[1..]);
      assert s == [s[0]] + s[1..];
    }
  }

  /** Re-bracketing a, t, b, c: the one sequence fact the parser proofs need. */
  lemma Shift<T>(a: seq<T>, t: T, b: seq<T>, c: seq<T>)
    ensures a + ([t] + (b + c)) == (a + [t] + b) + c
    ensures ([t] + (b + c))[1..] == b + c
  {
  }

  lemma Assoc<T>(a: seq<T>, b: seq<T>, c: seq<T>)
    ensures (a + b) + c == a + (b + c)
  {
  }

  lemma Uncons<T>(s: seq<T>)
    requires s != []
    ensures s == [s[0]] + s[1..]
  {
  }
}
