/**
 * The per-scope code generation context, as far as the error-exit emitters
 * use it, and the buffer `emit` appends to.
 */
module CodeGenContext {

  import opened CCode
  import opened Temps

  /** What kind of scope owns a variable or is being compiled. */
  datatype OwnerKind = CompiledPythonModule | ClassBody | FunctionBody

  /** A scope node (module, class body, function); owners are compared by identity. */
  class Owner {
    const kind: OwnerKind

    constructor (kind: OwnerKind)
      ensures this.kind == kind
    {
      this.kind := kind;
    }
  }

  /** A program variable: its name and the scope that declares it. */
  datatype Variable = Variable(name: string, owner: Owner)

  /** The C variables holding the exception currently being raised. */
  datatype ExceptionVariables = ExceptionVariables(
    exceptionType: string,
    exceptionValue: string,
    exceptionTb: string,
    exceptionLineno: string)

  /** The keeper variables that preserve an earlier exception inside a handler, if any. */
  datatype Keeper = NoKeeper | Keeper(keeperType: string, keeperValue: string, keeperTb: string)

  /**
   * The context's state as a value: the cleanup registry in registration
   * order, the keeper, the exception variables, the escape label, the frame
   * type description (empty when there is none) and its C declaration, the
   * current line-number update statement and the owner being compiled.
   */
  datatype ContextView = ContextView(
    cleanup: seq<TempName>,
    keeper: Keeper,
    exceptionVariables: ExceptionVariables,
    exceptionEscape: string,
    frameTypeDescriptionDeclaration: string,
    frameTypeDescription: string,
    lineNumberCode: string,
    owner: Owner)

  class Context {
    var cleanupTemps: seq<TempName>
    var keeper: Keeper
    const exceptionVariables: ExceptionVariables
    var exceptionEscape: string
    const frameTypeDescriptionDeclaration: string
    var frameTypeDescription: string
    var lineNumberCode: string
    const owner: Owner
    /** The constant pool: the C symbol of an interned constant. */
    const constantCode: string -> string

    ghost predicate Valid()
      reads this
    {
      UniqueNames(cleanupTemps)
    }

    function View(): ContextView
      reads this
    {
      ContextView(cleanupTemps, keeper, exceptionVariables, exceptionEscape,
                  frameTypeDescriptionDeclaration, frameTypeDescription, lineNumberCode, owner)
    }

    constructor (owner: Owner, exceptionVariables: ExceptionVariables, exceptionEscape: string,
                 frameTypeDescriptionDeclaration: string, constantCode: string -> string)
      ensures Valid()
      ensures View() == ContextView([], NoKeeper, exceptionVariables, exceptionEscape,
                                    frameTypeDescriptionDeclaration, "", "", owner)
      ensures this.constantCode == constantCode
    {
      this.cleanupTemps := [];
      this.keeper := NoKeeper;
      this.exceptionVariables := exceptionVariables;
      this.exceptionEscape := exceptionEscape;
      this.frameTypeDescriptionDeclaration := frameTypeDescriptionDeclaration;
      this.frameTypeDescription := "";
      this.lineNumberCode := "";
      this.owner := owner;
      this.constantCode := constantCode;
    }

    /** Registers a temporary that must be released on every exit path. */
    method AddCleanupTempName(t: TempName)
      requires Valid()
      requires forall u :: u in cleanupTemps ==> u.name != t.name
      modifies this`cleanupTemps
      ensures Valid()
      ensures cleanupTemps == old(cleanupTemps) + [t]
    {
      UniqueNamesSnoc(cleanupTemps, t);
      cleanupTemps := cleanupTemps + [t];
    }

    method NeedsCleanup(t: TempName) returns (needed: bool)
      ensures needed == (t in cleanupTemps)
    {
      needed := t in cleanupTemps;
    }

    /** Drops a registered temporary from the registry; others keep their order. */
    method RemoveCleanupTempName(t: TempName)
      requires Valid()
      requires t in cleanupTemps
      modifies this`cleanupTemps
      ensures Valid()
      ensures cleanupTemps == Without(old(cleanupTemps), [t])
    {
      var i := 0;
      while cleanupTemps[i] != t
        invariant 0 <= i < |cleanupTemps|
        invariant t in cleanupTemps[i..]
        decreases |cleanupTemps| - i
      {
        i := i + 1;
      }
      WithoutRemoveAt(cleanupTemps, i);
      UniqueNamesWithout(cleanupTemps, [t]);
      cleanupTemps := cleanupTemps[..i] + cleanupTemps[i + 1..];
    }
  }

  /** The code buffer that `emit` appends to, one fragment per call. */
  class CodeBuffer {
    var fragments: seq<Fragment>

    constructor ()
      ensures fragments == []
    {
      fragments := [];
    }

    method Emit(f: Fragment)
      modifies this
      ensures fragments == old(fragments) + [f]
    {
      fragments := fragments + [f];
    }
  }
}
