/** The part of Go's `fmt.Sprintf` that the core uses: the `%s` and `%d`
    verbs applied to string and integer operands, including the text Go
    writes for a missing operand, an operand of the wrong type and operands
    left over at the end.
 */
module GoFmt {
  import opened GoStrconv

  /** An operand of `Sprintf`. */
  datatype Arg = Str(s: string) | Int(i: int)

  /** Whether `format` starts with one of the two modelled verbs. */
  predicate StartsWithVerb(format: string) {
    |format| >= 2 && format[0] == '%' && (format[1] == 's' || format[1] == 'd')
  }

  /** How Go names and prints an operand inside an error annotation. */
  function Annotated(a: Arg): string {
    match a
    case Str(s) => "string=" + s
    case Int(i) => "int=" + FormatInt(i)
  }

  /** The text of one operand under `verb`: verbatim for `%s` of a string,
      decimal for `%d` of an integer, an error annotation otherwise. */
  function Render(verb: char, a: Arg): string {
    match a
    case Str(s) => if verb == 's' then s else "%!" + [verb] + "(" + Annotated(a) + ")"
    case Int(i) => if verb == 'd' then FormatInt(i) else "%!" + [verb] + "(" + Annotated(a) + ")"
  }

  /** The annotations of operands that no verb consumed, comma-separated. */
  function ExtraList(args: seq<Arg>): string
    decreases |args|
  {
    if |args| == 0 then ""
    else if |args| == 1 then Annotated(args[0])
    else Annotated(args[0]) + ", " + ExtraList(args[1..])
  }

  /** `fmt.Sprintf(format, args...)` for formats whose only verbs are `%s`
      and `%d`. */
  function Sprintf(format: string, args: seq<Arg>): string
    decreases |format|
  {
    if |format| == 0 then
      if |args| == 0 then "" else "%!(EXTRA " + ExtraList(args) + ")"
    else if StartsWithVerb(format) then
      var verb := format[1];
      if |args| == 0 then "%!" + [verb] + "(MISSING)" + Sprintf(format[2..], [])
      else Render(verb, args[0]) + Sprintf(format[2..], args[1..])
    else [format[0]] + Sprintf(format[1..], args)
  }

  /** A verb with no operand left writes `%!<verb>(MISSING)`. */
  lemma SprintfMissingOperand(verb: char, rest: string)
    requires verb == 's' || verb == 'd'
    ensures Sprintf(['%', verb] + rest, []) == "%!" + [verb] + "(MISSING)" + Sprintf(rest, [])
  {
    assert (['%', verb] + rest)[2..] == rest;
  }

  /** Operands left over at the end are listed in `%!(EXTRA ...)`. */
  lemma SprintfExtraOperands(lit: string, args: seq<Arg>)
    requires '%' !in lit && |args| > 0
    ensures Sprintf(lit, args) == lit + "%!(EXTRA " + ExtraList(args) + ")"
  {
    assert lit + "" == lit;
    SprintfLiteral(lit, "", args);
    AppendThree(lit, "%!(EXTRA ", ExtraList(args), ")");
  }

  /** Appending a concatenation of three. */
  lemma AppendThree<T>(a: seq<T>, b: seq<T>, c: seq<T>, d: seq<T>)
    ensures a + (b + c + d) == a + b + c + d
  {
  }

  /** A first character other than `%` is copied through unchanged. */
  lemma SprintfPlainChar(format: string, args: seq<Arg>)
    requires |format| > 0 && format[0] != '%'
    ensures Sprintf(format, args) == [format[0]] + Sprintf(format[1..], args)
  {
  }

  /** Consing onto a concatenation. */
  lemma ConsAppend<T>(x: T, s: seq<T>, t: seq<T>)
    ensures [x] + (s + t) == [x] + s + t
  {
  }

  /** Text without `%` is copied through unchanged. */
  lemma {:induction false} SprintfLiteral(lit: string, rest: string, args: seq<Arg>)
    requires '%' !in lit
    ensures Sprintf(lit + rest, args) == lit + Sprintf(rest, args)
    decreases |lit|
  {
    if lit == [] {
      assert lit + rest == rest;
    } else {
      var c, tail := lit[0], lit[1..];
      var format := lit + rest;
      assert format[0] == c && format[1..] == tail + rest && [c] + tail == lit by {
        assert lit == [c] + tail;
      }
      ConsAppend(c, tail, Sprintf(rest, args));
      assert c != '%' && '%' !in tail by {
        assert c in lit;
        forall i | 0 <= i < |tail| ensures tail[i] != '%' {
          assert tail[i] == lit[i + 1];
        }
      }
      SprintfLiteral(tail, rest, args);
      SprintfPlainChar(format, args);
    }
  }

  /** A verb consumes the next operand and is replaced by its rendering. */
  lemma SprintfVerb(verb: char, rest: string, a: Arg, args: seq<Arg>)
    requires verb == 's' || verb == 'd'
    ensures Sprintf(['%', verb] + rest, [a] + args) == Render(verb, a) + Sprintf(rest, args)
  {
    var format := ['%', verb] + rest;
    assert format[2..] == rest;
    assert ([a] + args)[1..] == args;
  }

  /** A literal run followed by `%s` writes the run, then the next operand
      verbatim. */
  lemma SprintfStrSegment(lit: string, rest: string, a: string, args: seq<Arg>)
    requires '%' !in lit
    ensures Sprintf(lit + "%s" + rest, [Str(a)] + args) == lit + a + Sprintf(rest, args)
  {
    assert lit + "%s" + rest == lit + (['%', 's'] + rest);
    SprintfLiteral(lit, ['%', 's'] + rest, [Str(a)] + args);
    SprintfVerb('s', rest, Str(a), args);
  }

  /** A format with a single `%s` between two literal runs, given one
      string: the string lands between the runs. */
  lemma SprintfOneString(lit: string, rest: string, a: string)
    requires '%' !in lit && '%' !in rest
    ensures Sprintf(lit + "%s" + rest, [Str(a)]) == lit + a + rest
  {
    assert [Str(a)] == [Str(a)] + [];
    SprintfStrSegment(lit, rest, a, []);
    SprintfLiteral(rest, "", []);
    assert rest + "" == rest;
  }

  /** The format made of the literal runs `lits` with a `%s` between each
      two of them. */
  function FormatOf(lits: seq<string>): string
    requires |lits| > 0
    decreases |lits|
  {
    if |lits| == 1 then lits[0] else lits[0] + "%s" + FormatOf(lits[1..])
  }

  /** The runs `lits` with the strings `strs` between them, in order. */
  function Interleave(lits: seq<string>, strs: seq<string>): string
    requires |lits| == |strs| + 1
    decreases |strs|
  {
    if |strs| == 0 then lits[0] else lits[0] + strs[0] + Interleave(lits[1..], strs[1..])
  }

  /** The strings `strs` as `Sprintf` operands. */
  function StrArgs(strs: seq<string>): seq<Arg>
    decreases |strs|
  {
    if |strs| == 0 then [] else [Str(strs[0])] + StrArgs(strs[1..])
  }

  /** A format whose only verbs are `%s`, between literal runs without
      `%`, given exactly one string per verb: each string lands in its
      place and nothing else is written. */
  lemma {:induction false} SprintfStrings(lits: seq<string>, strs: seq<string>)
    requires |lits| == |strs| + 1
    requires forall i :: 0 <= i < |lits| ==> '%' !in lits[i]
    ensures Sprintf(FormatOf(lits), StrArgs(strs)) == Interleave(lits, strs)
    decreases |strs|
  {
    if |strs| == 0 {
      SprintfLiteral(lits[0], "", []);
      assert lits[0] + "" == lits[0];
    } else {
      assert '%' !in lits[0];
      SprintfStrSegment(lits[0], FormatOf(lits[1..]), strs[0], StrArgs(strs[1..]));
      SprintfStrings(lits[1..], strs[1..]);
    }
  }

  /** Three strings between four runs. */
  lemma InterleaveThree(l0: string, l1: string, l2: string, l3: string, a: string, b: string, c: string)
    ensures Interleave([l0, l1, l2, l3], [a, b, c]) == l0 + a + l1 + b + l2 + c + l3
  {
    var lits, strs := [l0, l1, l2, l3], [a, b, c];
    assert lits[1..] == [l1, l2, l3] && lits[2..] == [l2, l3] && lits[3..] == [l3];
    assert strs[1..] == [b, c] && strs[2..] == [c] && strs[3..] == [];
    assert Interleave(lits[3..], strs[3..]) == l3;
    assert Interleave(lits[2..], strs[2..]) == l2 + c + l3;
  }

  /** Five strings between six runs. */
  lemma InterleaveFive(l0: string, l1: string, l2: string, l3: string, l4: string, l5: string,
                       a: string, b: string, c: string, d: string, e: string)
    ensures Interleave([l0, l1, l2, l3, l4, l5], [a, b, c, d, e])
         == l0 + a + l1 + b + l2 + c + l3 + d + l4 + e + l5
  {
    var lits, strs := [l0, l1, l2, l3, l4, l5], [a, b, c, d, e];
    assert lits[2..] == [l2, l3, l4, l5] && strs[2..] == [c, d, e];
    InterleaveThree(l2, l3, l4, l5, c, d, e);
    assert lits[1..] == [l1, l2, l3, l4, l5] && lits[1..][1..] == lits[2..];
    assert strs[1..] == [b, c, d, e] && strs[1..][1..] == strs[2..];
  }
}
