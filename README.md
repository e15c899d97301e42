# Nuitka error-exit emitters and conditional nodes, in Dafny

This project models two parts of the Nuitka Python compiler.

**Error-exit code emitters** (`nuitka/codegen/ErrorCodes.py`). When a fallible
operation in the generated C code fails, these emitters decide:

- which statement temporaries to release, and how;
- whether to emit a run-time check or only an assertion;
- how the exception is built (an interned constant or a
  `PyString_FromFormat`/`PyUnicode_FromFormat` call);
- whether exception-chaining statements follow;
- which exception and message report an unassigned local, a free variable
  or a missing name.

The code generation context is a class (`CodeGenContext.Context`). It holds:

- the ordered registry of temporaries that still need cleanup, each with its
  C type tag;
- the exception keeper variables;
- the exception variables and the escape label;
- the frame type description and the owner being compiled.

`emit` appends to a `CodeGenContext.CodeBuffer`. The single statements the
emitters write are `CCode.CStatement`s, and `CCode.Render` gives their exact
text. The four exception templates are records of the fields the emitters
fill in (`CCode.Fragment`).

Each emitter is an imperative method in module `ErrorCodes`. It changes only
the buffer and the cleanup registry. It is proved to do exactly what a pure
function of the context's state in module `ErrorCodesSpec` says. The
properties of the emitters are proved about those functions. A failing
`assert` of the source is a returned `ErrorCodesSpec.Status.Failed` naming
the assertion. The buffer and registry are left as they were when the
assertion fired.

**Conditional nodes** (`nuitka/nodes/ConditionalNodes.py`). These are the
expression `a if b else c` and the `if` statement, as a datatype tree in
module `ConditionalNodes`. The analysis results the constant folding
consults are function parameters:

- whether the condition raises;
- the condition's truth value;
- the helper that keeps the condition's side effects.

The same holds for how other expressions and statements answer
"may provide a reference" and "aborts". An original node's Python object
identity is its `id`. The side-effects node (`SideEffectsExpr`) carries no
`id`: the wrapper builds it fresh, so it is not an original node, and `Ids`
collects only the identities of original nodes.

The Python version (`python_version`, e.g. 270, 300 or 340) is an explicit
parameter.

## Model

| member | source | states |
|---|---|---|
| CCode.RenderDecRefInjective | nuitka/codegen/ErrorCodes.py:250 | two `Py_DECREF(...)` lines with the same text release the same variable |
| CodeGenContext.Context.RemoveCleanupTempName | nuitka/codegen/ErrorCodes.py:258 | removing a registered temporary drops exactly that one, keeps the others in order and keeps names unique |
| ErrorCodesSpec.TakeReference | nuitka/codegen/ErrorCodes.py:232-241 | exactly `Py_INCREF(<name>);` is emitted for an object, so it gains one reference; nothing is emitted for `nuitka_bool` and `nuitka_void`; any other C type fails the assertion and emits nothing |
| ErrorCodesSpec.TakeThenReleaseBalances | nuitka/codegen/ErrorCodes.py:232-256 | for a registered temporary, taking a reference and then releasing it succeed or fail together and leave its count unchanged |
| ErrorCodesSpec.Release | nuitka/codegen/ErrorCodes.py:244-258 | `Py_DECREF` is emitted only for a registered `PyObject *` temporary; a registered temporary with an unknown C type fails the assertion with the registry unchanged; otherwise the temporary leaves the registry; an unregistered one is a no-op |
| ErrorCodesSpec.Releases | nuitka/codegen/ErrorCodes.py:261-263 | the loop fails only on the assertion for a listed, registered temporary with an unknown C type |
| ErrorCodesSpec.ReleasesFailsOnUnknown | nuitka/codegen/ErrorCodes.py:249-263 | conversely, a listed temporary that is registered with an unknown C type always makes the loop fail |
| ErrorCodesSpec.ReleasesSnoc | nuitka/codegen/ErrorCodes.py:262-263 | releasing a list and then one more name is releasing the longer list, in order |
| ErrorCodesSpec.ReleasesMatchReference | nuitka/codegen/ErrorCodes.py:261-263 | on success the loop emits one `Py_DECREF` per registered object among the names, at its first occurrence, in list order, and the registry loses exactly the listed names |
| ErrorCodesSpec.ReleasesAtMostOnce | nuitka/codegen/ErrorCodes.py:261-263 | with unique registered names, no release statement is emitted twice, even for a name listed twice, and names stay unique |
| ErrorCodesSpec.ReleaseTextLines | nuitka/codegen/ErrorCodes.py:44-56 | the release block is one `Py_DECREF` line per registered temporary in registry order, then the keeper's `Py_DECREF`/`Py_XDECREF`/`Py_XDECREF` lines exactly when a keeper is active; with an empty registry and a keeper it starts with an empty line |
| ErrorCodesSpec.FrameVariableTypeDescription | nuitka/codegen/ErrorCodes.py:59-69 | the code is empty exactly when there is no description, and otherwise starts with the declaration |
| ErrorCodesSpec.FrameVariableTypeDescriptionInjective | nuitka/codegen/ErrorCodes.py:63-67 | the assignment determines the description it records |
| ErrorCodesSpec.ExceptionChaining | nuitka/codegen/ErrorCodes.py:163-180 | with a keeper the chain is the single `ADD_EXCEPTION_CONTEXT(&k0, &k1)`; otherwise `NORMALIZE_EXCEPTION` then `CHAIN_EXCEPTION`; all of it is chaining |
| ErrorCodesSpec.WithChaining | nuitka/codegen/ErrorCodes.py:214-215 | the statements are kept as a prefix, followed from version 300 by exactly the `_getExceptionChainingCode` statements and below 300 by nothing |
| ErrorCodesSpec.ReleaseArgumentsAreReleases | nuitka/codegen/ErrorCodes.py:83-89 | a release list together with a release name fails the assertion exactly when the list's releases succeed, keeping their effect; otherwise the arguments release like one list |
| ErrorCodesSpec.ErrorExitBool | nuitka/codegen/ErrorCodes.py:72-140 | a condition ending in `;` fails before any output; otherwise the output starts with exactly the releases of the release arguments, and their failure (an unknown C type or both arguments given) is the status, with nothing after them; without a check one `assert(!(<condition>));` follows and no exception template; with a check exactly one catch template follows, the quick one exactly when a quick exception is given, filled from the context (exception variables, escape label, frame description, line update) with the release block of the registry after the releases |
| ErrorCodesSpec.ErrorExitReleasesEachTempOnce | nuitka/codegen/ErrorCodes.py:83-113 | on the exception exit, the explicit releases plus the template's release block release every registered object exactly once and nothing unregistered |
| ErrorCodesSpec.ErrorExitReleaseLinesOnce | nuitka/codegen/ErrorCodes.py:44-56 | as C text too, no `Py_DECREF` line of the explicit releases and the exit's release block repeats |
| ErrorCodesSpec.ReleaseLinesDistinct | nuitka/codegen/ErrorCodes.py:45-47 | distinct `Py_DECREF` statements render as distinct lines |
| ErrorCodesSpec.FormatSetException | nuitka/codegen/ErrorCodes.py:193-215 | type assigned and given a reference; a single `str` argument sets the value to its interned constant with a reference; otherwise `Py<String or Unicode>_FromFormat` over the quoted arguments, `String` exactly below version 300; then the traceback is set to `NULL` (the fifth or the fourth statement); after it exactly the chaining statements from version 300, and nothing below |
| ErrorCodesSpec.FormatSetExceptionReferences | nuitka/codegen/ErrorCodes.py:193-212 | the statements take one reference to the exception type, one to the value only when it is an interned constant (the `FromFormat` result is already owned), and none to the traceback |
| ErrorCodesSpec.ErrorFormatExitBool | nuitka/codegen/ErrorCodes.py:183-229 | a condition ending in `;` fails with no output; otherwise exactly one formatted-exception template with those set-exception statements and the context's exit fields (escape label, the registry's release block, frame description, line update); the registry is unchanged |
| ErrorCodesSpec.LocalVariableErrorArgs | nuitka/codegen/ErrorCodes.py:283-307 | another owner gives `PyExc_NameError` with the free-variable message, the same owner `PyExc_UnboundLocalError` with the local-variable message; the variable name is the second argument |
| ErrorCodesSpec.LocalVariableErrorFormatsName | nuitka/codegen/ErrorCodes.py:283-307 | the exception value is formatted from the message and the variable name as two quoted C strings separated by `, ` |
| ErrorCodesSpec.NameErrorHelper | nuitka/codegen/ErrorCodes.py:311-317 | `FORMAT_GLOBAL_NAME_ERROR` exactly below version 340 for owners that are neither a compiled module nor a class body, `FORMAT_NAME_ERROR` otherwise |
| ErrorCodesSpec.NameErrorSetException | nuitka/codegen/ErrorCodes.py:319-336 | the helper call reports the name's constant into the exception variables; after it exactly the chaining statements from version 300, and nothing below |
| ErrorCodesSpec.NameReferenceError | nuitka/codegen/ErrorCodes.py:338-350 | one name-error template with those statements and the context's exit fields (escape label, the registry's release block, frame description, line update) |
| ErrorCodes.TakeReferenceCode | nuitka/codegen/ErrorCodes.py:232-241 | emits what `TakeReference` gives and returns its status |
| ErrorCodes.ReleaseCode | nuitka/codegen/ErrorCodes.py:244-258 | asks the context whether the temporary is registered (`Context.NeedsCleanup`, registry membership), then emits and updates the registry as `Release` gives, keeping registered names unique |
| ErrorCodes.ReleasesStopAtFailure | nuitka/codegen/ErrorCodes.py:262-263 | once the loop has failed, the remaining names change nothing |
| ErrorCodes.ReleaseCodes | nuitka/codegen/ErrorCodes.py:261-263 | the loop emits and updates the registry as `Releases` gives, stopping at the first failed assertion |
| ErrorCodes.ReleaseTextAppends | nuitka/codegen/ErrorCodes.py:45-56 | the release text is the joined registry lines, followed, exactly when a keeper is active, by its `Py_DECREF`, `Py_XDECREF`, `Py_XDECREF` lines each after a newline |
| ErrorCodes.ErrorExitReleaseCode | nuitka/codegen/ErrorCodes.py:44-56 | the joined text built from the registry and the keeper is `ReleaseText` of the context |
| ErrorCodes.AssertionCode | nuitka/codegen/ErrorCodes.py:275-276 | appends exactly `assert(<check>);` |
| ErrorCodes.ReleaseArgumentsCode | nuitka/codegen/ErrorCodes.py:83-89 | emits and updates the registry as `ReleaseArguments` gives |
| ErrorCodes.ErrorExitBoolCode | nuitka/codegen/ErrorCodes.py:72-140 | emits, updates the registry and fails exactly as `ErrorExitBool` of the context's prior state gives |
| ErrorCodes.ErrorExitCode | nuitka/codegen/ErrorCodes.py:143-160 | `ErrorExitBoolCode` with the value's C-type exception check as the condition |
| ErrorCodes.ErrorFormatExitBoolCode | nuitka/codegen/ErrorCodes.py:183-229 | emits and fails exactly as `ErrorFormatExitBool` of the context gives |
| ErrorCodes.LocalVariableReferenceErrorCode | nuitka/codegen/ErrorCodes.py:283-307 | emits and fails exactly as `LocalVariableReferenceError` of the context gives |
| ErrorCodes.NameReferenceErrorCode | nuitka/codegen/ErrorCodes.py:310-350 | appends exactly the `NameReferenceError` template of the context |
| ConditionalNodes.ComputeExpression | nuitka/nodes/ConditionalNodes.py:51-84 | a raising condition wins and is the result, tagged new-raise; otherwise true selects the yes branch and false the no branch, each wrapped with the condition's side effects and tagged new-expression; an unknown truth value leaves the node unchanged with no tag |
| ConditionalNodes.FoldingDropsDeadParts | nuitka/nodes/ConditionalNodes.py:54-82 | after a raising condition neither branch is in the result; after true the no branch is absent and after false the yes branch; every change removes the conditional node itself, so the result holds strictly fewer original nodes (a side-effects wrapper the change builds is a new node and is not counted) |
| ConditionalNodes.UnchangedIsFixpoint | nuitka/nodes/ConditionalNodes.py:83-84 | an unchanged node folds to itself again under the same analysis |
| ConditionalNodes.MayProvideReference | nuitka/nodes/ConditionalNodes.py:98-99 | a conditional may provide a reference exactly when one of the expressions it can evaluate to, through nested branches, may |
| ConditionalNodes.IsStatementAborting | nuitka/nodes/ConditionalNodes.py:124-138 | aborting exactly when both branches are present and both abort; an absent branch makes it non-aborting |
| ConditionalNodes.AbortingIffEveryPathAborts | nuitka/nodes/ConditionalNodes.py:124-138 | aborting exactly when every path through the nested conditionals ends in an aborting statement, where an absent branch is a path that falls through |

`getErrorExitReleaseCode` (lines 45-47) writes `Py_DECREF` for every registered
temporary, whatever its C type. `getReleaseCode` (lines 249-254) releases only
`PyObject *` temporaries. The model keeps both as written: `ReleaseText` makes
no C-type distinction. `ErrorExitReleasesEachTempOnce` counts a `Py_DECREF` of a
registered non-object temporary as a line of the release block.

## Left out

- The text of the C templates and `indented`: templates are records of their fields, and single statements carry their text through `CCode.Render`.
- `getErrorLineNumberUpdateCode`: the line-number update is the context's `lineNumberCode` field, an input.
- `getExceptionIdentifier` and `getExceptionCheckCondition`: these are calls into code outside the model, so they are function parameters (`exceptionIdentifier`, `exceptionCheckCondition`).
- The constant pool behind `getConstantCode`: this is the context's opaque `constantCode` function.
- The context's own implementation is not part of this model. The registry is assumed to hold unique names, as the context keeps it (`Context.Valid`). `Context.AddCleanupTempName` accepts only a fresh name.
- `getMustNotGetHereCode` and `getCheckObjectCode`: each is one fixed `emit`, with nothing to prove.
- `mayHaveSideEffectsBool` (`ConditionalNodes.py` lines 86-96): line 87 reads the unbound name `condition`, so any call raises `NameError`. It is not modelled.
- `willRaiseException`, `getTruthValue` and `wrapExpressionWithNodeSideEffects`: these are parameters. `FoldingDropsDeadParts` assumes only that the wrapper draws its nodes from its two arguments (`WrapDrawsFrom`).
- `childGetter`/`childSetter`, and `setBranchYes`/`setBranchNo`: children are datatype fields.
- `getBranches` (lines 44-45): it returns the two child getters' results as a pair, which are the `yes` and `no` fields of `ConditionalExpr`; a pair of two fields has nothing of its own to prove.
- `isStatementAborting` and `mayProvideReference` of nodes other than the conditional ones: these are the parameters `aborts` and `providesReference`.
- Python's `None` and the empty string are one value for `quick_exception` and for the frame type description. The source tests only their truth value.
- Below Python 3, `getNameReferenceErrorCode` passes `set_exception` to `indented` as a single string. The model holds it as a one-statement list.
- What the generated C program does at run time, such as reference counts reaching zero: only the emitted code and the context's state are modelled.
