// storage/influxdb.go: escaping text for double-quoted Flux literals.

/** A Go string is its sequence of bytes, so a character here is one byte.  The scanner below
    knows double-quoted literals, their backslash escapes and the "${" that opens an interpolated
    expression in them, and nothing else of Flux. */
module FluxText {
  import opened Basics

  type Byte = c: char | c < 256 as char

  type Text = seq<Byte>

  const MAX_FLUX_STRING_LENGTH := 1000

  // strings.ReplaceAll(s, old, new) for an old text of one byte.
  function ReplaceAll(s: Text, old_: Byte, new_: Text): Text {
    if s == [] then []
    else (if s[0] == old_ then new_ else [s[0]]) + ReplaceAll(s[1..], old_, new_)
  }

  function Truncated(s: Text): Text {
    if |s| > MAX_FLUX_STRING_LENGTH then s[..MAX_FLUX_STRING_LENGTH] else s
  }

  function Stages(s: Text): Text {
    var s1 := ReplaceAll(s, '\\', ['\\', '\\']);
    var s2 := ReplaceAll(s1, '"', ['\\', '"']);
    var s3 := ReplaceAll(s2, '\n', ['\\', 'n']);
    var s4 := ReplaceAll(s3, '\r', ['\\', 'r']);
    ReplaceAll(s4, '\0', [])
  }

  function SanitizeFluxString(s: Text): Text {
    Stages(Truncated(s))
  }

  // ---------- One pass ----------

  function EscapeByte(b: Byte): Text {
    match b
    case '\\' => ['\\', '\\']
    case '"' => ['\\', '"']
    case '\n' => ['\\', 'n']
    case '\r' => ['\\', 'r']
    case '\0' => []
    case _ => [b]
  }

  function Escape(s: Text): Text {
    if s == [] then [] else EscapeByte(s[0]) + Escape(s[1..])
  }

  function WithoutNul(s: Text): Text {
    if s == [] then []
    else if s[0] == '\0' then WithoutNul(s[1..])
    else [s[0]] + WithoutNul(s[1..])
  }

  lemma {:induction false} ReplaceAllConcat(a: Text, b: Text, old_: Byte, new_: Text)
    ensures ReplaceAll(a + b, old_, new_) == ReplaceAll(a, old_, new_) + ReplaceAll(b, old_, new_)
  {
    if a == [] {
      assert a + b == b;
    } else {
      ReplaceAllConcat(a[1..], b, old_, new_);
      assert (a + b)[1..] == a[1..] + b && (a + b)[0] == a[0];
      var head := if a[0] == old_ then new_ else [a[0]];
      assert head + (ReplaceAll(a[1..], old_, new_) + ReplaceAll(b, old_, new_))
             == (head + ReplaceAll(a[1..], old_, new_)) + ReplaceAll(b, old_, new_);
    }
  }

  lemma {:induction false} StagesConcat(a: Text, b: Text)
    ensures Stages(a + b) == Stages(a) + Stages(b)
  {
    ReplaceAllConcat(a, b, '\\', ['\\', '\\']);
    var a1, b1 := ReplaceAll(a, '\\', ['\\', '\\']), ReplaceAll(b, '\\', ['\\', '\\']);
    ReplaceAllConcat(a1, b1, '"', ['\\', '"']);
    var a2, b2 := ReplaceAll(a1, '"', ['\\', '"']), ReplaceAll(b1, '"', ['\\', '"']);
    ReplaceAllConcat(a2, b2, '\n', ['\\', 'n']);
    var a3, b3 := ReplaceAll(a2, '\n', ['\\', 'n']), ReplaceAll(b2, '\n', ['\\', 'n']);
    ReplaceAllConcat(a3, b3, '\r', ['\\', 'r']);
    var a4, b4 := ReplaceAll(a3, '\r', ['\\', 'r']), ReplaceAll(b3, '\r', ['\\', 'r']);
    ReplaceAllConcat(a4, b4, '\0', []);
  }

  lemma {:induction false} ReplaceOne(b: Byte, old_: Byte, new_: Text)
    ensures ReplaceAll([b], old_, new_) == if b == old_ then new_ else [b]
  {
  }

  lemma {:induction false} ReplaceTwo(a: Byte, b: Byte, old_: Byte, new_: Text)
    requires a != old_ && b != old_
    ensures ReplaceAll([a, b], old_, new_) == [a, b]
  {
    assert [a, b][1..] == [b];
    ReplaceOne(b, old_, new_);
  }

  // The order of the stages matters here: no stage touches what an earlier one put in.
  lemma {:induction false} StagesOnByte(b: Byte)
    ensures Stages([b]) == EscapeByte(b)
  {
    ReplaceOne(b, '\\', ['\\', '\\']);
    if b == '\\' {
      ReplaceTwo('\\', '\\', '"', ['\\', '"']);
      ReplaceTwo('\\', '\\', '\n', ['\\', 'n']);
      ReplaceTwo('\\', '\\', '\r', ['\\', 'r']);
      ReplaceTwo('\\', '\\', '\0', []);
    } else {
      ReplaceOne(b, '"', ['\\', '"']);
      if b == '"' {
        ReplaceTwo('\\', '"', '\n', ['\\', 'n']);
        ReplaceTwo('\\', '"', '\r', ['\\', 'r']);
        ReplaceTwo('\\', '"', '\0', []);
      } else {
        ReplaceOne(b, '\n', ['\\', 'n']);
        if b == '\n' {
          ReplaceTwo('\\', 'n', '\r', ['\\', 'r']);
          ReplaceTwo('\\', 'n', '\0', []);
        } else {
          ReplaceOne(b, '\r', ['\\', 'r']);
          if b == '\r' { ReplaceTwo('\\', 'r', '\0', []); } else { ReplaceOne(b, '\0', []); }
        }
      }
    }
  }

  lemma {:induction false} StagesAreOnePass(s: Text)
    ensures Stages(s) == Escape(s)
  {
    if s != [] {
      StagesConcat([s[0]], s[1..]);
      assert [s[0]] + s[1..] == s;
      StagesOnByte(s[0]);
      StagesAreOnePass(s[1..]);
    }
  }

  // The five rewrites are one escaping pass over at most the first 1000 bytes.
  lemma {:induction false} SanitizeIsOnePass(s: Text)
    ensures SanitizeFluxString(s) == Escape(Truncated(s))
  {
    StagesAreOnePass(Truncated(s));
  }

  // ---------- Reading a literal back ----------

  // The byte an escape sequence stands for.
  function Unescaped(b: Byte): Option<Byte> {
    match b
    case '\\' => Some('\\')
    case '"' => Some('"')
    case 'n' => Some('\n')
    case 'r' => Some('\r')
    case _ => None
  }

  // The inside of a literal, read up to its closing quote: its value and what follows the quote.
  // None if it is not closed or holds an unknown escape.
  function ReadLiteral(s: Text): Option<(Text, Text)> {
    if s == [] then None
    else if s[0] == '"' then Some(([], s[1..]))
    else if s[0] == '\\' then
      if |s| < 2 || Unescaped(s[1]) == None then None
      else Consed(Unescaped(s[1]).value, ReadLiteral(s[2..]))
    else Consed(s[0], ReadLiteral(s[1..]))
  }

  function Consed(b: Byte, r: Option<(Text, Text)>): Option<(Text, Text)> {
    if r.None? then None else Some(([b] + r.value.0, r.value.1))
  }

  // Escaped text between quotes ends exactly at the closing quote, whatever follows, and its
  // value is the original text without NUL bytes.
  lemma {:induction false} EscapedLiteralReadsBack(s: Text, rest: Text)
    ensures ReadLiteral(Escape(s) + ['"'] + rest) == Some((WithoutNul(s), rest))
  {
    if s == [] {
      assert Escape(s) + ['"'] + rest == ['"'] + rest;
    } else {
      var inner := Escape(s[1..]) + ['"'] + rest;
      EscapedLiteralReadsBack(s[1..], rest);
      assert Escape(s) + ['"'] + rest == EscapeByte(s[0]) + inner;
      EscapedByteReadsBack(s[0], inner);
    }
  }

  lemma {:induction false} EscapedByteReadsBack(b: Byte, inner: Text)
    ensures ReadLiteral(EscapeByte(b) + inner)
            == if b == '\0' then ReadLiteral(inner) else Consed(b, ReadLiteral(inner))
  {
    var whole := EscapeByte(b) + inner;
    if |EscapeByte(b)| == 2 {
      assert whole[2..] == inner;
    } else if |EscapeByte(b)| == 1 {
      assert whole[1..] == inner;
    } else {
      assert whole == inner;
    }
  }

  // For every input, sanitising and reading the literal back gives the first 1000 bytes less
  // their NULs, and the literal ends at the quote that was put after it.
  lemma {:induction false} SanitizedLiteralReadsBack(s: Text, rest: Text)
    ensures ReadLiteral(SanitizeFluxString(s) + ['"'] + rest) == Some((WithoutNul(Truncated(s)), rest))
  {
    SanitizeIsOnePass(s);
    EscapedLiteralReadsBack(Truncated(s), rest);
  }

  // The value is the whole input, or its first 1000 bytes if it is longer, less the NULs.
  lemma {:induction false} LiteralIsPrefix(s: Text, rest: Text)
    ensures |s| <= 1000 ==> ReadLiteral(SanitizeFluxString(s) + ['"'] + rest) == Some((WithoutNul(s), rest))
    ensures |s| > 1000 ==> ReadLiteral(SanitizeFluxString(s) + ['"'] + rest) == Some((WithoutNul(s[..1000]), rest))
  {
    SanitizedLiteralReadsBack(s, rest);
  }

  // NULs are all that WithoutNul takes away.
  lemma {:induction false} WithoutNulKeepsRest(s: Text, b: Byte)
    ensures multiset(WithoutNul(s))[b] == if b == '\0' then 0 else multiset(s)[b]
  {
    if s != [] {
      WithoutNulKeepsRest(s[1..], b);
      assert s == [s[0]] + s[1..];
    }
  }

  // Two inputs are confused only if they agree on their first 1000 bytes up to NULs.
  lemma {:induction false} SanitizeCollidesIff(a: Text, b: Text)
    ensures SanitizeFluxString(a) == SanitizeFluxString(b) <==> WithoutNul(Truncated(a)) == WithoutNul(Truncated(b))
  {
    SanitizedLiteralReadsBack(a, []);
    SanitizedLiteralReadsBack(b, []);
    SanitizeIsOnePass(a);
    SanitizeIsOnePass(b);
    EscapeIgnoresNul(Truncated(a));
    EscapeIgnoresNul(Truncated(b));
  }

  lemma {:induction false} EscapeIgnoresNul(s: Text)
    ensures Escape(WithoutNul(s)) == Escape(s)
  {
    if s != [] {
      EscapeIgnoresNul(s[1..]);
      if s[0] == '\0' {
        assert Escape(s) == Escape(s[1..]);
      } else {
        assert WithoutNul(s)[1..] == WithoutNul(s[1..]);
      }
    }
  }

  lemma {:induction false} EscapeIsTame(s: Text)
    ensures |Escape(s)| <= 2 * |s|
    ensures '\n' !in Escape(s) && '\r' !in Escape(s) && '\0' !in Escape(s)
  {
    if s != [] {
      EscapeIsTame(s[1..]);
      var e := EscapeByte(s[0]);
      assert '\n' !in e && '\r' !in e && '\0' !in e;
    }
  }

  // No raw newline, carriage return or NUL is left, and the length is bounded.
  lemma {:induction false} SanitizedIsTame(s: Text)
    ensures var r := SanitizeFluxString(s);
            && '\n' !in r && '\r' !in r && '\0' !in r
            && |r| <= 2 * Min(|s|, 1000)
  {
    SanitizeIsOnePass(s);
    EscapeIsTame(Truncated(s));
  }

  // ---------- Interpolation ----------

  // The inside of a literal holds an unescaped "${" before its closing quote, and so is not plain
  // text but an expression.
  predicate Interpolates(s: Text) {
    if s == [] || s[0] == '"' then false
    else if s[0] == '\\' then |s| >= 2 && Interpolates(s[2..])
    else OpensExpression(s) || Interpolates(s[1..])
  }

  predicate OpensExpression(s: Text) { |s| >= 2 && s[0] == '$' && s[1] == '{' }

  predicate HoldsDollarBrace(s: Text) {
    exists i :: 0 <= i < |s| && OpensExpression(s[i..])
  }

  lemma {:induction false} HoldsFirstOrLater(b: Byte, s: Text)
    ensures HoldsDollarBrace([b] + s) <==> OpensExpression([b] + s) || HoldsDollarBrace(s)
  {
    var t := [b] + s;
    assert t[0..] == t;
    assert forall i :: 0 <= i < |s| ==> s[i..] == t[i + 1..];
    if HoldsDollarBrace(t) && !OpensExpression(t) {
      var i :| 0 <= i < |t| && OpensExpression(t[i..]);
      assert OpensExpression(s[i - 1..]);
    }
    if HoldsDollarBrace(s) {
      var i :| 0 <= i < |s| && OpensExpression(s[i..]);
      assert OpensExpression(t[i + 1..]);
    }
  }

  lemma {:induction false} EscapedByteInterpolates(b: Byte, inner: Text)
    ensures Interpolates(EscapeByte(b) + inner) <==> (b == '$' && inner != [] && inner[0] == '{') || Interpolates(inner)
  {
    var whole := EscapeByte(b) + inner;
    assert whole[|EscapeByte(b)|..] == inner;
  }

  lemma {:induction false} FirstByteKept(s: Text, rest: Text)
    ensures (Escape(s) + ['"'] + rest)[0] == '{' <==> WithoutNul(s) != [] && WithoutNul(s)[0] == '{'
  {
    if s != [] && s[0] == '\0' { FirstByteKept(s[1..], rest); }
  }

  // Escaping neither adds nor removes an interpolation; dropping NULs may bring one about.
  lemma {:induction false} EscapedInterpolatesIff(s: Text, rest: Text)
    ensures Interpolates(Escape(s) + ['"'] + rest) <==> HoldsDollarBrace(WithoutNul(s))
  {
    if s == [] {
      assert Escape(s) + ['"'] + rest == ['"'] + rest;
    } else {
      var b, inner, kept := s[0], Escape(s[1..]) + ['"'] + rest, WithoutNul(s[1..]);
      EscapedInterpolatesIff(s[1..], rest);
      FirstByteKept(s[1..], rest);
      assert Escape(s) + ['"'] + rest == EscapeByte(b) + inner;
      EscapedByteInterpolates(b, inner);
      HoldsFirstOrLater(b, kept);
    }
  }

  // A literal of plain text, as ReadLiteral reads it; none if it interpolates.
  function ReadPlain(s: Text): Option<(Text, Text)> {
    if Interpolates(s) then None else ReadLiteral(s)
  }

  // ---------- The query ----------

  const FROM: Text := "\n\t\tfrom(bucket: "
  const RANGE: Text := ")\n\t\t\t|> range(start: -1h)"
  const FILTER: Text := "\n\t\t\t|> filter(fn: (r) => r."
  const MEASURED: Text := "_measurement == "
  const DEVICE: Text := "device_id == "
  const LAST: Text := "\n\t\t\t|> last()\n\t"
  const MEASUREMENT: Text := "power_consumption"

  function Quoted(inside: Text): Text { ['"'] + inside + ['"'] }

  // Code and literals in turn.
  function Assembled(code: seq<Text>, insides: seq<Text>): Text
    requires |code| == |insides| + 1
  {
    if insides == [] then code[0] else code[0] + (Quoted(insides[0]) + Assembled(code[1..], insides[1..]))
  }

  // The code of the query around its three literals.
  const CODE: seq<Text> := [FROM, RANGE + FILTER + MEASURED, [')'] + FILTER + DEVICE, [')'] + LAST]

  // The text QueryLatestReading sends.
  function Query(bucket: Text, deviceID: Text): Text {
    Assembled(CODE, [SanitizeFluxString(bucket), MEASUREMENT, SanitizeFluxString(deviceID)])
  }

  // A query as the pieces of code around its literals, and the literals' values.
  datatype Lexed = Lexed(code: seq<Text>, literals: seq<Text>)

  function Lex(s: Text): Option<Lexed>
    decreases |s|
  {
    LexFrom([], s)
  }

  function LexFrom(code: Text, s: Text): Option<Lexed>
    decreases |s|
  {
    if s == [] then Some(Lexed([code], []))
    else if s[0] != '"' then LexFrom(code + [s[0]], s[1..])
    else
      match ReadPlain(s[1..])
      case None => None
      case Some((value, rest)) =>
        ReadLiteralShortens(s[1..]);
        match LexFrom([], rest)
        case None => None
        case Some(l) => Some(Lexed([code] + l.code, [value] + l.literals))
  }

  lemma {:induction false} ReadLiteralShortens(s: Text)
    ensures ReadLiteral(s).Some? ==> |ReadLiteral(s).value.1| < |s|
  {
    if s != [] && s[0] != '"' {
      if s[0] == '\\' {
        if |s| >= 2 { ReadLiteralShortens(s[2..]); }
      } else {
        ReadLiteralShortens(s[1..]);
      }
    }
  }

  predicate Quoteless(s: Text) { forall i :: 0 <= i < |s| ==> s[i] != '"' }

  lemma {:induction false} LexCode(code: Text, s: Text, rest: Text)
    requires Quoteless(s)
    ensures LexFrom(code, s + rest) == LexFrom(code + s, rest)
    decreases |s|
  {
    if s == [] {
      assert s + rest == rest && code + s == code;
    } else {
      assert (s + rest)[1..] == s[1..] + rest;
      assert code + s == code + [s[0]] + s[1..];
      LexCode(code + [s[0]], s[1..], rest);
    }
  }

  // Whatever text follows its closing quote, the literal with this inside has this value, or is
  // rejected if the value holds "${".
  ghost predicate ReadsAs(inside: Text, value: Text) {
    forall rest: Text ::
      ReadPlain(inside + ['"'] + rest) == if HoldsDollarBrace(value) then None else Some((value, rest))
  }

  // The code before a literal, the literal, and the rest come apart as they were put together.
  lemma {:induction false} LexLiteral(code: Text, inside: Text, value: Text, rest: Text)
    requires Quoteless(code) && ReadsAs(inside, value)
    ensures Lex(code + (Quoted(inside) + rest))
            == if HoldsDollarBrace(value) || Lex(rest).None? then None
               else Some(Lexed([code] + Lex(rest).value.code, [value] + Lex(rest).value.literals))
  {
    var tail := Quoted(inside) + rest;
    LexCode([], code, tail);
    assert [] + code == code;
    assert tail[1..] == inside + ['"'] + rest;
  }

  // Lexing undoes assembling, for any number of literals, unless one of them interpolates.
  lemma {:induction false} LexAssembled(code: seq<Text>, insides: seq<Text>, values: seq<Text>)
    requires |code| == |insides| + 1 == |values| + 1
    requires forall i :: 0 <= i < |code| ==> Quoteless(code[i])
    requires forall i :: 0 <= i < |insides| ==> ReadsAs(insides[i], values[i])
    ensures Lex(Assembled(code, insides))
            == if exists i :: 0 <= i < |values| && HoldsDollarBrace(values[i]) then None else Some(Lexed(code, values))
  {
    if insides == [] {
      LexCode([], code[0], []);
      assert code[0] + [] == code[0] && [] + code[0] == code[0];
      assert code == [code[0]];
    } else {
      LexAssembled(code[1..], insides[1..], values[1..]);
      LexLiteral(code[0], insides[0], values[0], Assembled(code[1..], insides[1..]));
      assert code == [code[0]] + code[1..] && values == [values[0]] + values[1..];
      assert forall i :: 0 <= i < |values| - 1 ==> values[1..][i] == values[i + 1];
    }
  }

  lemma {:induction false} QuotelessCode()
    ensures forall i :: 0 <= i < |CODE| ==> Quoteless(CODE[i])
  {
    assert Quoteless(FROM) && Quoteless(RANGE) && Quoteless(FILTER);
    assert Quoteless(MEASURED) && Quoteless(DEVICE) && Quoteless(LAST);
  }

  // A text with nothing to escape is its own escaped form.
  lemma {:induction false} EscapePlain(s: Text)
    requires forall i :: 0 <= i < |s| ==> EscapeByte(s[i]) == [s[i]]
    ensures Escape(s) == s && WithoutNul(s) == s
  {
    if s != [] {
      EscapePlain(s[1..]);
      assert [s[0]] + s[1..] == s;
    }
  }

  lemma {:induction false} SanitizePlain(s: Text)
    requires |s| <= MAX_FLUX_STRING_LENGTH && forall i :: 0 <= i < |s| ==> EscapeByte(s[i]) == [s[i]]
    ensures SanitizeFluxString(s) == s && WithoutNul(Truncated(s)) == s
  {
    SanitizeIsOnePass(s);
    EscapePlain(s);
  }

  lemma {:induction false} SanitizedReadsAs(s: Text)
    ensures ReadsAs(SanitizeFluxString(s), WithoutNul(Truncated(s)))
  {
    forall rest: Text
      ensures ReadPlain(SanitizeFluxString(s) + ['"'] + rest)
              == if HoldsDollarBrace(WithoutNul(Truncated(s))) then None else Some((WithoutNul(Truncated(s)), rest))
    {
      SanitizedLiteralReadsBack(s, rest);
      SanitizeIsOnePass(s);
      EscapedInterpolatesIff(Truncated(s), rest);
    }
  }

  lemma {:induction false} MeasurementReadsAs()
    ensures ReadsAs(MEASUREMENT, MEASUREMENT) && !HoldsDollarBrace(MEASUREMENT)
  {
    hide SanitizeFluxString, Truncated, WithoutNul, ReadsAs;
    SanitizedReadsAs(MEASUREMENT);
    SanitizePlain(MEASUREMENT);
  }

  // The query keeps its structure, the same code around three literals whose values are the
  // bucket, the measurement and the device, exactly if neither bucket nor device identifier, cut
  // to 1000 bytes and without NULs, holds "${".
  lemma {:induction false} QueryKeepsStructureIff(bucket: Text, deviceID: Text)
    ensures var b, d := WithoutNul(Truncated(bucket)), WithoutNul(Truncated(deviceID));
            Lex(Query(bucket, deviceID))
            == if HoldsDollarBrace(b) || HoldsDollarBrace(d) then None else Some(Lexed(CODE, [b, MEASUREMENT, d]))
  {
    QuotelessCode();
    var insides := [SanitizeFluxString(bucket), MEASUREMENT, SanitizeFluxString(deviceID)];
    var values := [WithoutNul(Truncated(bucket)), MEASUREMENT, WithoutNul(Truncated(deviceID))];
    SanitizedReadsAs(bucket);
    SanitizedReadsAs(deviceID);
    MeasurementReadsAs();
    LexAssembled(CODE, insides, values);
    hide HoldsDollarBrace, Lex;
    assert values[0] == WithoutNul(Truncated(bucket)) && values[2] == WithoutNul(Truncated(deviceID));
  }

  const EXPRESSION: Text := "${r.device_id}"

  // An identifier of this form comes through unchanged, and the query then holds an expression.
  lemma {:induction false} ExpressionComesThrough(bucket: Text)
    ensures SanitizeFluxString(EXPRESSION) == EXPRESSION && Lex(Query(bucket, EXPRESSION)) == None
  {
    hide SanitizeFluxString, Truncated, WithoutNul, Query, Lex;
    SanitizePlain(EXPRESSION);
    assert OpensExpression(EXPRESSION[0..]);
    QueryKeepsStructureIff(bucket, EXPRESSION);
  }
}
