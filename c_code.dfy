/**
 * The C code the error-exit emitters produce. Single statements are
 * `CStatement`s whose exact text is given by `Render`; the exception
 * templates are records of the fields the emitters fill in (`Fragment`),
 * their surrounding text and indentation are not modelled.
 */
module CCode {

  /** The C API that builds a formatted exception value: Python 2 strings or Python 3 unicode. */
  datatype TextApi = PyString | PyUnicode

  /** The C statements written by the emitters, each with the operands it names. */
  datatype CStatement =
    | DecRef(target: string)
    | XDecRef(target: string)
    | IncRef(target: string)
    | Assert(check: string)
    | Assign(target: string, value: string)
    | FromFormat(target: string, api: TextApi, formatArgs: string)
    | NormalizeException(exceptionType: string, exceptionValue: string, exceptionTb: string)
    | ChainException(exceptionValue: string)
    | AddExceptionContext(keeperType: string, keeperValue: string)
    | ReportNameError(helper: string, exceptionType: string, exceptionValue: string, name: string)

  /** The exact text of a statement, as the emitters format it. */
  function Render(s: CStatement): string
  {
    match s
    case DecRef(t) => "Py_DECREF(" + t + ");"
    case XDecRef(t) => "Py_XDECREF(" + t + ");"
    case IncRef(t) => "Py_INCREF(" + t + ");"
    case Assert(c) => "assert(" + c + ");"
    case Assign(t, v) => t + " = " + v + ";"
    case FromFormat(t, api, args) =>
      t + " = Py" + (if api == PyString then "String" else "Unicode") + "_FromFormat(" + args + ");"
    case NormalizeException(t, v, tb) => "NORMALIZE_EXCEPTION(&" + t + ", &" + v + ", &" + tb + ");"
    case ChainException(v) => "CHAIN_EXCEPTION(" + v + ");"
    case AddExceptionContext(k0, k1) => "ADD_EXCEPTION_CONTEXT(&" + k0 + ", &" + k1 + ");"
    case ReportNameError(h, t, v, n) => h + "(&" + t + ", &" + v + ", " + n + ");"
  }

  function Renders(ss: seq<CStatement>): seq<string>
  {
    seq(|ss|, i requires 0 <= i < |ss| => Render(ss[i]))
  }

  /** Two release statements with the same text release the same variable. */
  lemma RenderDecRefInjective(x: string, y: string)
    requires Render(DecRef(x)) == Render(DecRef(y))
    ensures x == y
  {
    var s := Render(DecRef(x));
    assert s == "Py_DECREF(" + x + ");";
    assert s[10..|s| - 2] == x;
    assert s[10..|s| - 2] == y;
  }

  /** `sep.join(parts)`. */
  function JoinWith(sep: string, parts: seq<string>): string
  {
    if |parts| == 0 then ""
    else if |parts| == 1 then parts[0]
    else parts[0] + sep + JoinWith(sep, parts[1..])
  }

  /** Joining two non-empty lists is joining each and putting one separator between them. */
  lemma {:induction false} JoinWithAppend(sep: string, a: seq<string>, b: seq<string>)
    requires |a| > 0 && |b| > 0
    ensures JoinWith(sep, a + b) == JoinWith(sep, a) + sep + JoinWith(sep, b)
  {
    if |a| == 1 {
      assert (a + b)[1..] == b;
    } else {
      assert (a + b)[1..] == a[1..] + b;
      JoinWithAppend(sep, a[1..], b);
    }
  }

  /** Adding one more part to a join adds the separator and the part, unless the list was empty. */
  lemma JoinWithSnoc(sep: string, parts: seq<string>, x: string)
    ensures JoinWith(sep, parts + [x]) == if |parts| == 0 then x else JoinWith(sep, parts) + sep + x
  {
    if |parts| == 0 {
      assert parts + [x] == [x];
    } else {
      JoinWithAppend(sep, parts, [x]);
    }
  }

  /** Joining three parts puts the separator between each neighbouring pair. */
  lemma JoinWithThree(sep: string, a: string, b: string, d: string)
    ensures JoinWith(sep, [a, b, d]) == a + sep + b + sep + d
  {
    assert [a, b, d][1..] == [b, d];
    JoinWithTwo(sep, b, d);
    assert JoinWith(sep, [a, b, d]) == a + sep + (b + sep + d);
  }

  /** Appending a separator and a three-part join is appending the parts one after another. */
  lemma AppendJoinWithThree(j: string, sep: string, a: string, b: string, d: string)
    ensures j + (sep + JoinWith(sep, [a, b, d])) == j + sep + a + sep + b + sep + d
  {
    JoinWithThree(sep, a, b, d);
  }

  /** Joining two parts puts one separator between them. */
  lemma JoinWithTwo(sep: string, a: string, b: string)
    ensures JoinWith(sep, [a, b]) == a + sep + b
  {
    assert [a, b][1..] == [b];
  }

  /** The fields every exception-exit template shares. */
  datatype ExitParts = ExitParts(
    exceptionExit: string,
    releaseTemps: string,
    varDescriptionCode: string,
    lineNumberCode: string)

  /**
   * One call of `emit`: a single statement, or one of the four exception
   * templates (catch, quick catch, formatted exception, name error) with
   * its fields.
   */
  datatype Fragment =
    | Statement(statement: CStatement)
    | ErrorCatch(condition: string, exceptionType: string, exceptionValue: string,
                 exceptionTb: string, exit: ExitParts)
    | ErrorCatchQuick(condition: string, exceptionType: string, exceptionValue: string,
                      exceptionTb: string, quickException: string, exit: ExitParts)
    | ErrorFormatString(condition: string, setException: seq<CStatement>, exit: ExitParts)
    | ErrorFormatNameError(condition: string, setException: seq<CStatement>, exit: ExitParts)
  {
    /** True for the templates that branch to the exception exit at run time. */
    predicate IsTemplate() { !Statement? }
  }
}
