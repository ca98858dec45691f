/** The order and joining of text that the source relies on. */
module Strings {
  import opened Sorting

  predicate LexLe(a: string, b: string) {
    if a == [] then true
    else if b == [] then false
    else a[0] < b[0] || (a[0] == b[0] && LexLe(a[1..], b[1..]))
  }

  /** Up to `k` the texts are the same, and there `a` ends or has the smaller character. */
  ghost predicate ComesBefore(a: string, b: string, k: nat) {
    && k <= |a| && k <= |b| && a[..k] == b[..k]
    && (k == |a| || (k < |b| && a[k] < b[k]))
  }

  lemma Longer(a: string, b: string, k: nat)
    requires a != [] && b != [] && a[0] == b[0] && k < |a| && k < |b|
    ensures a[1..][..k] == b[1..][..k] <==> a[..k + 1] == b[..k + 1]
  {
    assert a[..k + 1] == [a[0]] + a[1..][..k] && b[..k + 1] == [b[0]] + b[1..][..k];
  }

  /** The order is that of the first difference. */
  lemma {:induction false} LexByFirstDifference(a: string, b: string)
    ensures LexLe(a, b) <==> exists k: nat :: ComesBefore(a, b, k)
  {
    if a == [] {
      assert ComesBefore(a, b, 0);
    } else if b != [] && a[0] == b[0] {
      LexByFirstDifference(a[1..], b[1..]);
      if k: nat :| ComesBefore(a[1..], b[1..], k) {
        Longer(a, b, k);
        assert ComesBefore(a, b, k + 1);
      }
      if k: nat :| ComesBefore(a, b, k) {
        assert k > 0;
        Longer(a, b, k - 1);
        assert ComesBefore(a[1..], b[1..], k - 1);
      }
    } else if b != [] && a[0] < b[0] {
      assert ComesBefore(a, b, 0);
    }
  }

  lemma {:induction false} LexTotal(a: string, b: string)
    ensures LexLe(a, b) || LexLe(b, a)
  {
    if a != [] && b != [] && a[0] == b[0] {
      LexTotal(a[1..], b[1..]);
    }
  }

  lemma {:induction false} LexTransitive(a: string, b: string, c: string)
    requires LexLe(a, b) && LexLe(b, c)
    ensures LexLe(a, c)
  {
    if a != [] && b != [] && c != [] && a[0] == b[0] == c[0] {
      LexTransitive(a[1..], b[1..], c[1..]);
    }
  }

  lemma {:induction false} LexAntisymmetric(a: string, b: string)
    requires LexLe(a, b) && LexLe(b, a)
    ensures a == b
  {
    if a != [] && b != [] {
      LexAntisymmetric(a[1..], b[1..]);
      assert a == [a[0]] + a[1..] && b == [b[0]] + b[1..];
    }
  }

  function TextOrder(): (string, string) -> bool {
    (a: string, b: string) => LexLe(a, b)
  }

  lemma TextOrderIsTotal()
    ensures TotalPreorder(TextOrder())
  {
    forall a, b ensures TextOrder()(a, b) || TextOrder()(b, a) {
      LexTotal(a, b);
    }
    forall a, b, c | TextOrder()(a, b) && TextOrder()(b, c) ensures TextOrder()(a, c) {
      LexTransitive(a, b, c);
    }
  }

  // ----- Joining with a separator -----

  const SEPARATOR: char := '|'

  predicate Plain(s: string) {
    SEPARATOR !in s
  }

  function Join(parts: seq<string>): string
    decreases |parts|, 0
  {
    if parts == [] then "" else parts[0] + Tail(parts[1..])
  }

  /** What follows the first part of a joined text. */
  function Tail(parts: seq<string>): (s: string)
    ensures s == [] || s[0] == SEPARATOR
    decreases |parts|, 1
  {
    if parts == [] then "" else [SEPARATOR] + Join(parts)
  }

  /** Where the first separator stands, or the length of the text. */
  function FirstSeparator(s: string): (k: nat)
    ensures k <= |s|
  {
    if s == [] || s[0] == SEPARATOR then 0 else 1 + FirstSeparator(s[1..])
  }

  lemma {:induction false} FirstSeparatorAfter(head: string, rest: string)
    requires Plain(head) && (rest == [] || rest[0] == SEPARATOR)
    ensures FirstSeparator(head + rest) == |head|
  {
    if head == [] {
      assert head + rest == rest;
    } else {
      assert (head + rest)[1..] == head[1..] + rest;
      FirstSeparatorAfter(head[1..], rest);
    }
  }

  lemma HeadsAgree(a: string, b: string, afterA: string, afterB: string)
    requires Plain(a) && Plain(b) && a + afterA == b + afterB
    requires (afterA == [] || afterA[0] == SEPARATOR) && (afterB == [] || afterB[0] == SEPARATOR)
    ensures a == b && afterA == afterB
  {
    FirstSeparatorAfter(a, afterA);
    FirstSeparatorAfter(b, afterB);
    assert a == (a + afterA)[..|a|] && b == (b + afterB)[..|b|];
    assert afterA == (a + afterA)[|a|..] && afterB == (b + afterB)[|b|..];
  }

  lemma TailsAgree(a: seq<string>, b: seq<string>)
    requires a != [] && b != [] && Tail(a) == Tail(b)
    ensures Join(a) == Join(b)
  {
    assert Join(a) == Tail(a)[1..] && Join(b) == Tail(b)[1..];
  }

  /** Parts without the separator can be read back from the joined text. */
  lemma {:induction false} JoinInjective(a: seq<string>, b: seq<string>)
    requires |a| == |b| && Join(a) == Join(b)
    requires forall i :: 0 <= i < |a| ==> Plain(a[i])
    requires forall i :: 0 <= i < |b| ==> Plain(b[i])
    ensures a == b
  {
    if a != [] {
      HeadsAgree(a[0], b[0], Tail(a[1..]), Tail(b[1..]));
      if |a| > 1 {
        TailsAgree(a[1..], b[1..]);
        JoinInjective(a[1..], b[1..]);
      }
      assert a == [a[0]] + a[1..] && b == [b[0]] + b[1..];
    }
  }

  lemma JoinCons(parts: seq<string>)
    requires |parts| >= 2
    ensures Join(parts) == parts[0] + ("|" + Join(parts[1..]))
  {
  }

  // ----- Decimal numerals -----

  function Decimal(n: nat): (s: string)
    ensures s != []
  {
    if n < 10 then ['0' + n as char] else Decimal(n / 10) + ['0' + (n % 10) as char]
  }

  lemma {:induction false} DecimalIsPlain(n: nat)
    ensures forall c :: c in Decimal(n) ==> '0' <= c <= '9'
    ensures Plain(Decimal(n))
  {
    if n >= 10 {
      DecimalIsPlain(n / 10);
    }
  }

  /** The number that a text of digits reads as, the first digit weighing most. */
  function ReadDigits(s: string): int {
    if s == [] then 0 else 10 * ReadDigits(s[..|s| - 1]) + (s[|s| - 1] as int - '0' as int)
  }

  lemma {:induction false} DecimalReadsBack(n: nat)
    ensures ReadDigits(Decimal(n)) == n
    ensures n > 0 ==> Decimal(n)[0] != '0'
  {
    var last := '0' + (n % 10) as char;
    assert last as int - '0' as int == n % 10;
    if n >= 10 {
      DecimalReadsBack(n / 10);
      assert Decimal(n)[..|Decimal(n)| - 1] == Decimal(n / 10);
    } else {
      assert Decimal(n) == [last] && [last][..0] == [];
    }
  }

  lemma {:induction false} DecimalInjective(m: nat, n: nat)
    requires Decimal(m) == Decimal(n)
    ensures m == n
  {
    var a, b := Decimal(m), Decimal(n);
    assert a[|a| - 1] == '0' + (m % 10) as char && b[|b| - 1] == '0' + (n % 10) as char;
    if m >= 10 && n >= 10 {
      assert Decimal(m / 10) == a[..|a| - 1] && Decimal(n / 10) == b[..|b| - 1];
      DecimalInjective(m / 10, n / 10);
    }
  }
}
