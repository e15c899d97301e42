/**
 * The emitters of nuitka/codegen/ErrorCodes.py as they run: each appends
 * to the code buffer and updates the context's cleanup registry, and is
 * proved to do exactly what its specification in ErrorCodesSpec says.
 * A failed assertion of the source returns a `Failed` status, with the
 * buffer and the registry as they were at that point.
 */
module ErrorCodes {

  import opened Optional
  import opened CCode
  import opened Temps
  import opened CodeGenContext
  import opened ErrorCodesSpec

  lemma AsFragmentsAppend(a: seq<CStatement>, b: seq<CStatement>)
    ensures AsFragments(a + b) == AsFragments(a) + AsFragments(b)
  {
  }

  /** `getTakeReferenceCode`. */
  method TakeReferenceCode(t: TempName, emit: CodeBuffer) returns (status: Status)
    modifies emit
    ensures emit.fragments == old(emit.fragments) + AsFragments(TakeReference(t).emitted)
    ensures status == TakeReference(t).status
  {
    status := Completed;
    if t.cType == PyObjectPtr {
      emit.Emit(Statement(IncRef(t.name)));
    } else if t.cType == NuitkaBool {
    } else if t.cType == NuitkaVoid {
    } else {
      status := Failed(UnknownCType(t));
    }
  }

  /** `getReleaseCode`. */
  method ReleaseCode(t: TempName, emit: CodeBuffer, context: Context) returns (status: Status)
    requires context.Valid()
    modifies emit, context`cleanupTemps
    ensures context.Valid()
    ensures var r := Release(old(context.cleanupTemps), t);
      && emit.fragments == old(emit.fragments) + AsFragments(r.emitted)
      && context.cleanupTemps == r.cleanup
      && status == r.status
  {
    status := Completed;
    var needed := context.NeedsCleanup(t);
    if needed {
      if t.cType == PyObjectPtr {
        emit.Emit(Statement(DecRef(t.name)));
      } else if t.cType == NuitkaBool {
      } else if t.cType == NuitkaVoid {
      } else {
        return Failed(UnknownCType(t));
      }
      context.RemoveCleanupTempName(t);
    }
  }

  /** Once the release loop has failed, the remaining names change nothing. */
  lemma {:induction false} ReleasesStopAtFailure(c: seq<TempName>, ns: seq<TempName>, k: nat)
    requires k <= |ns| && Releases(c, ns[..k]).status.Failed?
    ensures Releases(c, ns) == Releases(c, ns[..k])
    decreases k
  {
    assert k > 0;
    assert ns[..k][0] == ns[0] && ns[..k][1..] == ns[1..][..k - 1];
    var first := Release(c, ns[0]);
    if first.status.Completed? {
      ReleasesStopAtFailure(first.cleanup, ns[1..], k - 1);
    }
  }

  /** What one more iteration of the release loop adds, and that a failure ends the loop's effect. */
  lemma ReleaseLoopStep(c: seq<TempName>, ns: seq<TempName>, i: nat)
    requires i < |ns| && Releases(c, ns[..i]).status.Completed?
    ensures var before := Releases(c, ns[..i]);
      var f := Release(before.cleanup, ns[i]);
      var after := Releases(c, ns[..i + 1]);
      && after.cleanup == f.cleanup && after.status == f.status
      && AsFragments(after.emitted) == AsFragments(before.emitted) + AsFragments(f.emitted)
      && (f.status.Failed? ==> Releases(c, ns) == after)
  {
    var before := Releases(c, ns[..i]);
    ReleasesSnoc(c, ns[..i], ns[i]);
    assert ns[..i + 1] == ns[..i] + [ns[i]];
    AsFragmentsAppend(before.emitted, Release(before.cleanup, ns[i]).emitted);
    if Release(before.cleanup, ns[i]).status.Failed? {
      ReleasesStopAtFailure(c, ns, i + 1);
    }
  }

  /** `getReleaseCodes`. */
  method ReleaseCodes(ns: seq<TempName>, emit: CodeBuffer, context: Context) returns (status: Status)
    requires context.Valid()
    modifies emit, context`cleanupTemps
    ensures context.Valid()
    ensures var r := Releases(old(context.cleanupTemps), ns);
      && emit.fragments == old(emit.fragments) + AsFragments(r.emitted)
      && context.cleanupTemps == r.cleanup
      && status == r.status
  {
    ghost var c := context.cleanupTemps;
    status := Completed;
    var i := 0;
    while i < |ns|
      invariant 0 <= i <= |ns|
      invariant context.Valid()
      invariant status == Completed
      invariant var r := Releases(c, ns[..i]);
        && r.status.Completed?
        && emit.fragments == old(emit.fragments) + AsFragments(r.emitted)
        && context.cleanupTemps == r.cleanup
    {
      ReleaseLoopStep(c, ns, i);
      status := ReleaseCode(ns[i], emit, context);
      assert emit.fragments == old(emit.fragments) + AsFragments(Releases(c, ns[..i + 1]).emitted);
      if status.Failed? {
        assert Releases(c, ns) == Releases(c, ns[..i + 1]);
        return;
      }
      i := i + 1;
    }
    assert ns[..i] == ns;
  }

  /** The release text is the joined registry lines, then the keeper's three lines appended one by one. */
  lemma ReleaseTextAppends(c: seq<TempName>, k: Keeper, joined: string)
    requires joined == JoinWith("\n", Renders(DecRefs(c)))
    ensures ReleaseText(c, k) ==
      if k.Keeper? then
        joined + "\n" + Render(DecRef(k.keeperType)) + "\n" + Render(XDecRef(k.keeperValue))
        + "\n" + Render(XDecRef(k.keeperTb))
      else joined
  {
    if k.Keeper? {
      var a, b, d := Render(DecRef(k.keeperType)), Render(XDecRef(k.keeperValue)), Render(XDecRef(k.keeperTb));
      assert Renders(KeeperReleases(k)) == [a, b, d];
      AppendJoinWithThree(joined, "\n", a, b, d);
    } else {
      assert joined + "" == joined;
    }
  }

  /** One more registered temporary adds one line to the joined release lines. */
  lemma ReleaseLinesSnoc(temps: seq<TempName>, i: nat)
    requires i < |temps|
    ensures var line := Render(DecRef(temps[i].name));
      JoinWith("\n", Renders(DecRefs(temps[..i + 1]))) ==
        if i == 0 then line else JoinWith("\n", Renders(DecRefs(temps[..i]))) + "\n" + line
  {
    var line := Render(DecRef(temps[i].name));
    assert Renders(DecRefs(temps[..i + 1])) == Renders(DecRefs(temps[..i])) + [line];
    JoinWithSnoc("\n", Renders(DecRefs(temps[..i])), line);
  }

  /** `getErrorExitReleaseCode`: the registry's release lines, then the keeper's. */
  method ErrorExitReleaseCode(context: Context) returns (text: string)
    ensures text == ReleaseText(context.cleanupTemps, context.keeper)
  {
    var temps := context.cleanupTemps;
    text := "";
    var i := 0;
    while i < |temps|
      invariant 0 <= i <= |temps|
      invariant text == JoinWith("\n", Renders(DecRefs(temps[..i])))
    {
      var line := Render(DecRef(temps[i].name));
      ReleaseLinesSnoc(temps, i);
      text := if i == 0 then line else text + "\n" + line;
      i := i + 1;
    }
    assert temps[..i] == temps;
    var keeper := context.keeper;
    ReleaseTextAppends(temps, keeper, text);
    if keeper.Keeper? {
      text := text + "\n" + Render(DecRef(keeper.keeperType));
      text := text + "\n" + Render(XDecRef(keeper.keeperValue));
      text := text + "\n" + Render(XDecRef(keeper.keeperTb));
    }
  }

  /** `getAssertionCode`. */
  method AssertionCode(check: string, emit: CodeBuffer)
    modifies emit
    ensures emit.fragments == old(emit.fragments) + [Statement(Assert(check))]
  {
    emit.Emit(Statement(Assert(check)));
  }

  /** Lines 83-89 of `getErrorExitBoolCode`: the release list, or the single release name. */
  method ReleaseArgumentsCode(releaseNames: seq<TempName>, releaseName: Option<TempName>, emit: CodeBuffer,
                              context: Context) returns (status: Status)
    requires context.Valid()
    modifies emit, context`cleanupTemps
    ensures context.Valid()
    ensures var r := ReleaseArguments(old(context.cleanupTemps), releaseNames, releaseName);
      && emit.fragments == old(emit.fragments) + AsFragments(r.emitted)
      && context.cleanupTemps == r.cleanup
      && status == r.status
  {
    ghost var c := context.cleanupTemps;
    ghost var first := if |releaseNames| > 0 then Releases(c, releaseNames) else Released(c, [], Completed);
    status := Completed;
    if |releaseNames| > 0 {
      status := ReleaseCodes(releaseNames, emit, context);
      if status.Failed? {
        return;
      }
      if releaseName.Some? {
        return Failed(ConflictingReleaseArguments);
      }
    }
    if releaseName.Some? {
      status := ReleaseCode(releaseName.value, emit, context);
      AsFragmentsAppend(first.emitted, Release(first.cleanup, releaseName.value).emitted);
    }
  }

  /** `getErrorExitBoolCode`. */
  method ErrorExitBoolCode(condition: string, emit: CodeBuffer, context: Context, releaseNames: seq<TempName>,
                           releaseName: Option<TempName>, needsCheck: bool, quickException: string,
                           exceptionIdentifier: string -> string) returns (status: Status)
    requires context.Valid()
    modifies emit, context`cleanupTemps
    ensures context.Valid()
    ensures var e := ErrorExitBool(old(context.View()), condition, releaseNames, releaseName, needsCheck,
                                   quickException, exceptionIdentifier);
      && emit.fragments == old(emit.fragments) + e.out
      && context.cleanupTemps == e.cleanup
      && status == e.status
  {
    if EndsWithSemicolon(condition) {
      return Failed(ConditionEndsWithSemicolon);
    }
    status := ReleaseArgumentsCode(releaseNames, releaseName, emit, context);
    if status.Failed? {
      return;
    }
    if !needsCheck {
      AssertionCode("!(" + condition + ")", emit);
      return;
    }
    ErrorCatchCode(condition, quickException, exceptionIdentifier, emit, context);
  }

  /** Lines 95-140 of `getErrorExitBoolCode`: the catch template, quick or not. */
  method ErrorCatchCode(condition: string, quickException: string, exceptionIdentifier: string -> string,
                        emit: CodeBuffer, context: Context)
    modifies emit
    ensures emit.fragments == old(emit.fragments) +
      [CatchTemplate(context.View(), condition, quickException, exceptionIdentifier)]
  {
    var vars := context.exceptionVariables;
    var releaseTemps := ErrorExitReleaseCode(context);
    var exit := ExitParts(context.exceptionEscape, releaseTemps,
                          FrameVariableTypeDescription(context.frameTypeDescriptionDeclaration,
                                                       context.frameTypeDescription),
                          context.lineNumberCode);
    if quickException != "" {
      emit.Emit(ErrorCatchQuick(condition, vars.exceptionType, vars.exceptionValue, vars.exceptionTb,
                                exceptionIdentifier(quickException), exit));
    } else {
      emit.Emit(ErrorCatch(condition, vars.exceptionType, vars.exceptionValue, vars.exceptionTb, exit));
    }
  }

  /** `getErrorExitCode`: the condition is the exception check of the value's C type. */
  method ErrorExitCode(checkName: TempName, emit: CodeBuffer, context: Context,
                       exceptionCheckCondition: TempName -> string, releaseNames: seq<TempName>,
                       releaseName: Option<TempName>, quickException: string, needsCheck: bool,
                       exceptionIdentifier: string -> string) returns (status: Status)
    requires context.Valid()
    modifies emit, context`cleanupTemps
    ensures context.Valid()
    ensures var e := ErrorExit(old(context.View()), checkName, exceptionCheckCondition, releaseNames, releaseName,
                               quickException, needsCheck, exceptionIdentifier);
      && emit.fragments == old(emit.fragments) + e.out
      && context.cleanupTemps == e.cleanup
      && status == e.status
  {
    status := ErrorExitBoolCode(exceptionCheckCondition(checkName), emit, context, releaseNames, releaseName,
                                needsCheck, quickException, exceptionIdentifier);
  }

  /** `getErrorFormatExitBoolCode`. */
  method ErrorFormatExitBoolCode(condition: string, exception: string, args: seq<FormatArg>, emit: CodeBuffer,
                                 context: Context, pythonVersion: nat) returns (status: Status)
    modifies emit
    ensures var e := ErrorFormatExitBool(context.View(), pythonVersion, condition, exception, args,
                                         context.constantCode);
      && emit.fragments == old(emit.fragments) + e.out
      && status == e.status
  {
    if EndsWithSemicolon(condition) {
      return Failed(ConditionEndsWithSemicolon);
    }
    var vars := context.exceptionVariables;
    var setException: seq<CStatement>;
    if |args| == 1 && args[0].StrArg? {
      setException := [Assign(vars.exceptionType, exception), IncRef(vars.exceptionType),
                       Assign(vars.exceptionValue, context.constantCode(args[0].text)),
                       IncRef(vars.exceptionValue), Assign(vars.exceptionTb, "NULL")];
    } else {
      setException := [Assign(vars.exceptionType, exception), IncRef(vars.exceptionType),
                       FromFormat(vars.exceptionValue, if pythonVersion < 300 then PyString else PyUnicode,
                                  QuotedArgs(args)),
                       Assign(vars.exceptionTb, "NULL")];
    }
    if pythonVersion >= 300 {
      setException := setException + ExceptionChaining(context.keeper, vars);
    }
    var releaseTemps := ErrorExitReleaseCode(context);
    var exit := ExitParts(context.exceptionEscape, releaseTemps,
                          FrameVariableTypeDescription(context.frameTypeDescriptionDeclaration,
                                                       context.frameTypeDescription),
                          context.lineNumberCode);
    emit.Emit(ErrorFormatString(condition, setException, exit));
    status := Completed;
  }

  /** `getLocalVariableReferenceErrorCode`. */
  method LocalVariableReferenceErrorCode(variable: Variable, condition: string, emit: CodeBuffer, context: Context,
                                         pythonVersion: nat) returns (status: Status)
    modifies emit
    ensures var e := LocalVariableReferenceError(context.View(), pythonVersion, variable, condition,
                                                 context.constantCode);
      && emit.fragments == old(emit.fragments) + e.out
      && status == e.status
  {
    if variable.owner != context.owner {
      status := ErrorFormatExitBoolCode(condition, "PyExc_NameError",
                                        [StrArg(FreeVariableMessage), StrArg(variable.name)],
                                        emit, context, pythonVersion);
    } else {
      status := ErrorFormatExitBoolCode(condition, "PyExc_UnboundLocalError",
                                        [StrArg(LocalVariableMessage), StrArg(variable.name)],
                                        emit, context, pythonVersion);
    }
  }

  /** `getNameReferenceErrorCode`. */
  method NameReferenceErrorCode(variableName: string, condition: string, emit: CodeBuffer, context: Context,
                                pythonVersion: nat)
    modifies emit
    ensures emit.fragments == old(emit.fragments) +
      [NameReferenceError(context.View(), pythonVersion, variableName, condition, context.constantCode)]
  {
    var helperCode := "FORMAT_NAME_ERROR";
    if pythonVersion < 340 {
      var owner := context.owner;
      if owner.kind != CompiledPythonModule && owner.kind != ClassBody {
        helperCode := "FORMAT_GLOBAL_NAME_ERROR";
      }
    }
    var vars := context.exceptionVariables;
    var setException := [ReportNameError(helperCode, vars.exceptionType, vars.exceptionValue,
                                         context.constantCode(variableName))];
    if pythonVersion >= 300 {
      setException := setException + ExceptionChaining(context.keeper, vars);
    }
    var releaseTemps := ErrorExitReleaseCode(context);
    var exit := ExitParts(context.exceptionEscape, releaseTemps,
                          FrameVariableTypeDescription(context.frameTypeDescriptionDeclaration,
                                                       context.frameTypeDescription),
                          context.lineNumberCode);
    emit.Emit(ErrorFormatNameError(condition, setException, exit));
  }
}
