// storage/cache.go: attempt identifiers and the file names made from them.

/** An attempt is named by the clock and the device, "%d_%s"; a file by its attempt. */
module CacheNames {

  function Decimal(n: nat): string {
    if n < 10 then ['0' + n as char] else Decimal(n / 10) + ['0' + (n % 10) as char]
  }

  // "%d" of a signed integer.
  function Formatted(n: int): string {
    if n < 0 then "-" + Decimal(-n) else Decimal(n)
  }

  function AttemptID(nanos: int, deviceID: string): string {
    Formatted(nanos) + "_" + deviceID
  }

  function FileName(attemptID: string): string {
    "cache_" + attemptID + ".json"
  }

  // What the directory listing looks for: "cache_*.json".
  predicate Globbed(name: string) {
    |name| >= 11 && name[..6] == "cache_" && name[|name| - 5..] == ".json"
  }

  // The integer a digit string stands for.
  function Value(s: string): int {
    if s == [] then 0 else 10 * Value(s[..|s| - 1]) + (s[|s| - 1] as int - '0' as int)
  }

  lemma {:induction false} DecimalReadsBack(n: nat)
    ensures Decimal(n) != [] && Value(Decimal(n)) == n
    ensures forall i :: 0 <= i < |Decimal(n)| ==> '0' <= Decimal(n)[i] <= '9'
  {
    var s := Decimal(n);
    if n < 10 {
      assert Value(s) == 10 * Value([]) + n by { assert s[..0] == []; }
    } else {
      DecimalReadsBack(n / 10);
      assert s[..|s| - 1] == Decimal(n / 10);
    }
  }

  lemma {:induction false} FormattedInjective(m: int, n: int)
    requires Formatted(m) == Formatted(n)
    ensures m == n
  {
    DecimalReadsBack(if m < 0 then -m else m);
    DecimalReadsBack(if n < 0 then -n else n);
    assert m < 0 <==> Formatted(m)[0] == '-';
    assert n < 0 <==> Formatted(n)[0] == '-';
    if m < 0 {
      assert Formatted(m)[1..] == Decimal(-m) && Formatted(n)[1..] == Decimal(-n);
    }
  }

  lemma {:induction false} NoUnderscore(n: int)
    ensures '_' !in Formatted(n)
  {
    DecimalReadsBack(if n < 0 then -n else n);
  }

  // The attempt identifier determines its clock reading and its device, whatever text the
  // device identifier holds.
  lemma {:induction false} AttemptIDInjective(m: int, d: string, n: int, e: string)
    ensures AttemptID(m, d) == AttemptID(n, e) <==> m == n && d == e
  {
    if AttemptID(m, d) == AttemptID(n, e) {
      var a, b, x := Formatted(m), Formatted(n), AttemptID(m, d);
      NoUnderscore(m);
      NoUnderscore(n);
      assert x[|a|] == '_' && x[|b|] == '_';
      assert forall i :: 0 <= i < |a| ==> x[i] == a[i];
      assert forall i :: 0 <= i < |b| ==> x[i] == b[i];
      assert a == x[..|a|] == b;
      FormattedInjective(m, n);
      assert d == x[|a| + 1..] == e;
    }
  }

  // The name of an attempt's file is one that the listing finds, and between prefix and suffix it
  // reads as the clock, an underscore and the device.
  lemma {:induction false} FileNameIsGlobbed(nanos: nat, deviceID: string)
    ensures var name, digits := FileName(AttemptID(nanos, deviceID)), Decimal(nanos);
            && Globbed(name) && Value(digits) == nanos
            && name[6..|name| - 5] == digits + "_" + deviceID
  {
    DecimalReadsBack(nanos);
  }

  lemma {:induction false} FileNameInjective(a: string, b: string)
    ensures FileName(a) == FileName(b) <==> a == b
  {
    if FileName(a) == FileName(b) {
      assert a == FileName(a)[6..|FileName(a)| - 5];
      assert b == FileName(b)[6..|FileName(b)| - 5];
    }
  }

  // Distinct clock readings never share a file, so a strictly increasing clock never overwrites.
  lemma {:induction false} FileOfAttemptInjective(m: int, d: string, n: int, e: string)
    ensures FileName(AttemptID(m, d)) == FileName(AttemptID(n, e)) <==> m == n && d == e
  {
    AttemptIDInjective(m, d, n, e);
    FileNameInjective(AttemptID(m, d), AttemptID(n, e));
  }
}
