/** When a run completes. A 'for' over the name of a running 'for' deletes the entry of that
    loop, so the two ways of looking names up may part; but then neither run completes. */
module EztCompletion {
  import opened Wrappers
  import opened EztSyntax
  import opened EztCompiler
  import opened EztRender
  import opened EztInterpreter

  /* ----- a lost loop stays lost ----- */

  // Once the entry of a loop is gone, no completed run brings it back.
  lemma {:induction false} StaysGone(steps: seq<Step>, st: State, data: Data, mode: Mode, name: string)
    requires name !in st.forIndex
    ensures Exec(steps, st, data, mode).error.None? ==> name !in Exec(steps, st, data, mode).st.forIndex
    decreases steps, 0, 0
  {
    if steps != [] {
      StepStaysGone(steps[0], st, data, mode, name);
      var o := ExecStep(steps[0], st, data, mode);
      if o.error.None? {
        StaysGone(steps[1..], o.st, data, mode, name);
      }
    }
  }

  lemma {:induction false} StepStaysGone(step: Step, st: State, data: Data, mode: Mode, name: string)
    requires name !in st.forIndex || (step.Block? && step.cmd.For? && RefName(step.cmd.list) == Some(name))
    ensures ExecStep(step, st, data, mode).error.None? ==> name !in ExecStep(step, st, data, mode).st.forIndex
    decreases step, 1, 0
  {
    match step
    case Block(For(list), onTrue, body) =>
      ForStaysGone(list, onTrue, body, st, data, mode, name);
    case Block(Define(_), _, body) =>
      StaysGone(body, st.(out := ""), data, mode, name);
    case Block(_, onTrue, body) =>
      StaysGone(body, st, data, mode, name);
      if onTrue.Present? {
        StaysGone(onTrue.steps, st, data, mode, name);
      }
    case _ =>
  }

  lemma {:induction false} ForStaysGone(list: ValRef, onTrue: Section, body: seq<Step>, st: State, data: Data,
                                        mode: Mode,
                                        name: string)
    requires name !in st.forIndex || RefName(list) == Some(name)
    ensures var o := ExecStep(Block(For(list), onTrue, body), st, data, mode);
            o.error.None? ==> name !in o.st.forIndex
    decreases body, 2, 0
  {
    var v := Get(list, st, data, mode);
    if list.Ref? && v.Ok? && v.value.List? {
      var begun := Begin(list.refname, v.value.items, st);
      LoopStaysGone(list.refname, v.value.items, 0, body, begun, data, mode, name);
    }
  }

  lemma {:induction false} LoopStaysGone(loop: string, items: seq<Value>, i: nat, body: seq<Step>, st: State,
                                         data: Data,
                                         mode: Mode, name: string)
    requires i <= |items|
    requires name == loop || name !in st.forIndex
    ensures var o := ForLoop(loop, items, i, body, st, data, mode); o.error.None? ==> name !in o.st.forIndex
    decreases body, 1, |items| - i
  {
    if i < |items| {
      if name != loop {
        StaysGone(body, st, data, mode, name);
      }
      var o := Exec(body, st, data, mode);
      if o.error.None? {
        LoopStaysGone(loop, items, i + 1, body, Increment(loop, items, i, o.st), data, mode, name);
      }
    }
  }

  lemma {:induction false} GoneLoopFails(name: string, items: seq<Value>, i: nat, body: seq<Step>, st: State,
                                         data: Data,
                                         mode: Mode)
    requires i <= |items| && name !in st.forIndex
    ensures ForLoop(name, items, i, body, st, data, mode).error.Some?
    decreases |items| - i
  {
    if i < |items| {
      StaysGone(body, st, data, mode, name);
      var o := Exec(body, st, data, mode);
      if o.error.None? {
        GoneLoopFails(name, items, i + 1, body, o.st, data, mode);
      }
    }
  }

  /* ----- runs agree, or neither completes ----- */

  // The run has failed, or an enclosing loop has lost its entry and will fail.
  ghost predicate Doomed(o: Outcome, names: Names) {
    o.error.Some? || exists n: string :: Some(n) in names && n !in o.st.forIndex
  }

  // Two outcomes of the same steps: the same, with the loops as before, or both doomed.
  ghost predicate Together(p: Outcome, q: Outcome, loops: Loops, names: Names) {
    || (p == q && (p.error.None? ==> p.st.forIndex == loops))
    || (Doomed(p, names) && Doomed(q, names))
  }

  lemma DoomedStays(o: Outcome, steps: seq<Step>, data: Data, mode: Mode, names: Names)
    requires Doomed(o, names) && o.error.None?
    ensures Doomed(Exec(steps, o.st, data, mode), names)
  {
    var n: string :| Some(n) in names && n !in o.st.forIndex;
    StaysGone(steps, o.st, data, mode, n);
  }

  // A round that dooms the loop dooms what encloses it.
  lemma {:induction false} DoomedLoop(name: string, items: seq<Value>, i: nat, body: seq<Step>, st: State, data: Data,
                                      mode: Mode, names: Names)
    requires i < |items| && Doomed(Exec(body, st, data, mode), names + [Some(name)])
    ensures Doomed(ForLoop(name, items, i, body, st, data, mode), names)
  {
    var o := Exec(body, st, data, mode);
    if o.error.None? {
      DoomedRest(name, items, i, body, o, data, mode, names);
    }
  }

  lemma {:induction false} DoomedRest(name: string, items: seq<Value>, i: nat, body: seq<Step>, o: Outcome, data: Data,
                                      mode: Mode, names: Names)
    requires i < |items| && Doomed(o, names + [Some(name)]) && o.error.None?
    ensures Doomed(ForLoop(name, items, i + 1, body, Increment(name, items, i, o.st), data, mode), names)
  {
    var n: string :| Some(n) in names + [Some(name)] && n !in o.st.forIndex;
    var st := Increment(name, items, i, o.st);
    if n == name {
      GoneLoopFails(name, items, i + 1, body, st, data, mode);
    } else {
      assert Some(n) in names;
      LoopStaysGone(name, items, i + 1, body, st, data, mode, n);
    }
  }

  lemma {:induction false} StepsTogether(steps: seq<Step>, st: State, data: Data, mode: Mode, names: Names)
    requires StepsOk(steps, names) && Running(st.forIndex, names) && mode != Prepared
    ensures Together(Exec(steps, st, data, Prepared), Exec(steps, st, data, mode), st.forIndex, names)
    decreases steps, 0, 0
  {
    if steps != [] {
      StepTogether(steps[0], st, data, mode, names);
      var p, q := ExecStep(steps[0], st, data, Prepared), ExecStep(steps[0], st, data, mode);
      if p == q && (p.error.None? ==> p.st.forIndex == st.forIndex) {
        if p.error.None? {
          StepsTogether(steps[1..], p.st, data, mode, names);
        }
      } else {
        if p.error.None? {
          DoomedStays(p, steps[1..], data, Prepared, names);
        }
        if q.error.None? {
          DoomedStays(q, steps[1..], data, mode, names);
        }
      }
    }
  }

  lemma {:induction false} StepTogether(step: Step, st: State, data: Data, mode: Mode, names: Names)
    requires StepOk(step, names) && Running(st.forIndex, names) && mode != Prepared
    ensures Together(ExecStep(step, st, data, Prepared), ExecStep(step, st, data, mode), st.forIndex, names)
    decreases step, 1, 0
  {
    match step
    case Text(_) =>
    case Print(_, refs) =>
      SameValues(refs, st, data, names);
      StrictLooksUpByName(refs, st, data);
    case Include(file) =>
      SameValue(file, st, data, names);
    case Block(For(list), _, body) =>
      ForTogether(list, step.onTrue, body, st, data, mode, names);
    case Block(Define(name), _, body) =>
      StepsTogether(body, st.(out := ""), data, mode, names);
      DefineTogether(name, step.onTrue, body, st, data, mode, names);
    case Block(cmd, onTrue, body) =>
      StepsTogether(body, st, data, mode, names);
      if onTrue.Present? {
        StepsTogether(onTrue.steps, st, data, mode, names);
      }
      IfTogether(cmd, onTrue, body, st, data, mode, names);
  }

  ghost predicate RunTogether(steps: seq<Step>, st: State, data: Data, mode: Mode, names: Names) {
    Together(Exec(steps, st, data, Prepared), Exec(steps, st, data, mode), st.forIndex, names)
  }

  lemma {:induction false} IfTogether(cmd: Command, onTrue: Section, body: seq<Step>, st: State, data: Data, mode: Mode,
                                      names: Names)
    requires cmd.IfAny? || cmd.IfIndex? || cmd.Is?
    requires CommandOk(cmd, names) && Running(st.forIndex, names) && mode != Prepared
    requires RunTogether(body, st, data, mode, names)
    requires onTrue.Present? ==> RunTogether(onTrue.steps, st, data, mode, names)
    ensures var step := Block(cmd, onTrue, body);
            Together(ExecStep(step, st, data, Prepared), ExecStep(step, st, data, mode), st.forIndex, names)
  {
    ConditionTogether(cmd, st, data, mode, names);
  }

  lemma {:induction false} DefineTogether(name: Option<string>, onTrue: Section, body: seq<Step>, st: State, data: Data,
                                          mode: Mode, names: Names)
    requires RunTogether(body, st.(out := ""), data, mode, names)
    ensures var step := Block(Define(name), onTrue, body);
            Together(ExecStep(step, st, data, Prepared), ExecStep(step, st, data, mode), st.forIndex, names)
  {
  }

  lemma StrictLooksUpByName(refs: seq<ValRef>, st: State, data: Data)
    ensures GetAll(refs, st, data, Strict) == GetAll(refs, st, data, ByName)
    ensures AnyTruthy(refs, st, data, Strict) == AnyTruthy(refs, st, data, ByName)
  {
  }

  lemma StrictCondition(cmd: Command, st: State, data: Data)
    requires cmd.IfAny? || cmd.IfIndex? || cmd.Is?
    ensures Condition(cmd, st, data, Strict) == Condition(cmd, st, data, ByName)
  {
    match cmd
    case IfAny(refs) => StrictLooksUpByName(refs, st, data);
    case IfIndex(_, _) =>
    case Is(left, right) =>
      assert Get(left, st, data, Strict) == Get(left, st, data, ByName);
      assert Get(right, st, data, Strict) == Get(right, st, data, ByName);
  }

  lemma ConditionTogether(cmd: Command, st: State, data: Data, mode: Mode, names: Names)
    requires cmd.IfAny? || cmd.IfIndex? || cmd.Is?
    requires CommandOk(cmd, names) && Running(st.forIndex, names) && mode != Prepared
    ensures Condition(cmd, st, data, Prepared) == Condition(cmd, st, data, mode)
  {
    ConditionAgrees(cmd, st, data, names);
    StrictCondition(cmd, st, data);
  }

  lemma {:induction false} ForTogether(list: ValRef, onTrue: Section, body: seq<Step>, st: State, data: Data,
                                       mode: Mode,
                                       names: Names)
    requires StepOk(Block(For(list), onTrue, body), names) && Running(st.forIndex, names) && mode != Prepared
    ensures var step := Block(For(list), onTrue, body);
            Together(ExecStep(step, st, data, Prepared), ExecStep(step, st, data, mode), st.forIndex, names)
    decreases body, 2, 0
  {
    if list.Ref? && Some(list.refname) in names {
      ReuseTogether(list, onTrue, body, st, data, mode, names);
    } else {
      SameValue(list, st, data, names);
      var v := GetPrepared(list, st, data);
      if list.Ref? && v.Ok? && v.value.List? {
        var name, items := list.refname, v.value.items;
        var begun := Begin(name, items, st);
        ForEnters(list, onTrue, body, st, data, Prepared, items);
        ForEnters(list, onTrue, body, st, data, mode, items);
        if items == [] {
          assert begun.forIndex - {name} == st.forIndex;
        } else {
          LoopTogether(name, items, 0, body, begun, data, mode, names, st.forIndex);
        }
      }
    }
  }

  lemma {:induction false} ReuseTogether(list: ValRef, onTrue: Section, body: seq<Step>, st: State, data: Data,
                                         mode: Mode,
                                         names: Names)
    requires list.Ref? && Some(list.refname) in names
    ensures var step := Block(For(list), onTrue, body);
            Doomed(ExecStep(step, st, data, Prepared), names) && Doomed(ExecStep(step, st, data, mode), names)
  {
    var step := Block(For(list), onTrue, body);
    StepStaysGone(step, st, data, Prepared, list.refname);
    StepStaysGone(step, st, data, mode, list.refname);
  }

  lemma {:induction false} LoopTogether(name: string, items: seq<Value>, i: nat, body: seq<Step>, st: State, data: Data,
                                        mode: Mode, names: Names, outer: Loops)
    requires i < |items| && mode != Prepared
    requires Some(name) !in names && Running(outer, names)
    requires st.forIndex == outer[name := (items, i)]
    requires StepsOk(body, names + [Some(name)])
    ensures Together(ForLoop(name, items, i, body, st, data, Prepared), ForLoop(name, items, i, body, st, data, mode),
                     outer, names)
    decreases body, 1, |items| - i
  {
    var inner := names + [Some(name)];
    StepsTogether(body, st, data, mode, inner);
    var p, q := Exec(body, st, data, Prepared), Exec(body, st, data, mode);
    if p == q && (p.error.None? ==> p.st.forIndex == st.forIndex) {
      if p.error.None? {
        var st' := Increment(name, items, i, p.st);
        assert st'.forIndex == outer[name := (items, i + 1)];
        if i + 1 < |items| {
          LoopTogether(name, items, i + 1, body, st', data, mode, names, outer);
        } else {
          LastRound(name, items, body, st', data, mode, outer);
        }
      }
    } else {
      DoomedLoop(name, items, i, body, st, data, Prepared, names);
      DoomedLoop(name, items, i, body, st, data, mode, names);
    }
  }

  /** For every template that compiles and all data, whatever names its loops use: the run with
      references resolved at compile time completes if and only if the run that looks names up as
      it goes completes, and if and only if the run that also refuses to enter a 'for' over the
      name of a running 'for' completes. Then the three have the same outcome, and the loop
      table ends empty. */
  lemma ResolvedRunAgrees(toks: seq<Token>, base: Printer, data: Data)
    requires ParseTemplate(toks, base).Ok?
    ensures var program := ParseTemplate(toks, base).value;
            var start := State(map[], map[], "");
            var p, b, s := Exec(program, start, data, Prepared), Exec(program, start, data, ByName),
                           Exec(program, start, data, Strict);
            && (p.error.None? <==> b.error.None?) && (p.error.None? <==> s.error.None?)
            && (p.error.None? ==> p == b == s && p.st.forIndex == map[])
  {
    CompileRenderCompile(toks, base);
    var program, start := ParseTemplate(toks, base).value, State(map[], map[], "");
    StepsTogether(program, start, data, ByName, []);
    StepsTogether(program, start, data, Strict, []);
  }

  /** A run that ever enters a 'for' over the name of a running 'for', at any depth of blocks,
      does not complete. */
  lemma ReuseNeverCompletes(toks: seq<Token>, base: Printer, data: Data)
    requires ParseTemplate(toks, base).Ok?
    requires Exec(ParseTemplate(toks, base).value, State(map[], map[], ""), data, Strict).error == Some(Reused)
    ensures Exec(ParseTemplate(toks, base).value, State(map[], map[], ""), data, Prepared).error.Some?
  {
    ResolvedRunAgrees(toks, base, data);
  }

  const A := Ref("a", "a", [])
  const INNER := Block(For(A), Absent, [])

  // [for a][for a][end][end]
  const NESTED: seq<Step> := [Block(For(A), Absent, [INNER])]

  lemma AIsOk(names: Names)
    ensures RefOk(A, names)
  {
    var parts := Split("a");
    assert Split("") == [""];
    assert "a"[1..] == "";
    assert parts == ["a"];
    assert parts[..1] == parts && parts[..0] == [] && Join(parts) == "a";
    assert parts[1..] == [];
  }

  lemma NestedIsOk()
    ensures StepsOk(NESTED, [])
  {
    AIsOk([]);
    AIsOk([Some("a")]);
    var inner := Enter(Node(For(A)), []);
    assert inner == [Some("a")];
    assert StepOk(INNER, inner);
    assert StepsOk([INNER], inner);
    assert StepOk(NESTED[0], []);
  }

  // The body of the outer loop, entered over a list of one empty list.
  lemma InnerRun(st: State, data: Data)
    requires st.forIndex == map["a" := ([List([])], 0)]
    ensures Exec([INNER], st, data, Strict) == Outcome(st, Some(Reused))
    ensures Exec([INNER], st, data, Prepared) == Outcome(st.(forIndex := map[]), None)
  {
    AIsOk([Some("a")]);
    SameValue(A, st, data, [Some("a")]);
    assert Get(A, st, data, Prepared) == Ok(List([]));
    var begun := Begin("a", [], st);
    assert begun.forIndex - {"a"} == map[];
  }

  /** Such runs exist: a template that loops over a name inside a loop over it. Written out and
      compiled it is the nested program, and over a list of one empty list its run loses the
      outer loop. */
  lemma ReuseExample(base: Printer)
    ensures ParseTemplate(Render(NESTED, base), base) == Ok(NESTED)
    ensures var start, data := State(map[], map[], ""), map["a" := List([List([])])];
            && Exec(NESTED, start, data, Strict).error == Some(Reused)
            && Exec(NESTED, start, data, Prepared).error == Some(LostLoop)
  {
    NestedIsOk();
    RenderThenCompile(NESTED, base);
    var start, data := State(map[], map[], ""), map["a" := List([List([])])];
    AIsOk([]);
    SameValue(A, start, data, []);
    var items := [List([])];
    assert Get(A, start, data, Prepared) == Ok(List(items));
    ForEnters(A, Absent, [INNER], start, data, Prepared, items);
    ForEnters(A, Absent, [INNER], start, data, Strict, items);
    var begun := Begin("a", items, start);
    assert begun.forIndex == map["a" := (items, 0)];
    InnerRun(begun, data);
  }

  /* ----- the two lookups can differ ----- */

  // The name a.b outside and inside a loop over it.
  const OUTSIDE := Ref("a.b", "a", ["b"])
  const INSIDE := Ref("a.b", "a.b", [])

  // [for a.b][for a.b][end][a.b][end]
  const BODY: seq<Step> := [Block(For(INSIDE), Absent, []), Print(Raw, [INSIDE])]
  const READ_AFTER: seq<Step> := [Block(For(OUTSIDE), Absent, BODY)]

  lemma SplitAB()
    ensures Split("a.b") == ["a", "b"] && Join(["a", "b"]) == "a.b" && |"a.b"| == 3
  {
    assert "a.b"[1..] == ".b" && ".b"[1..] == "b" && "b"[1..] == "";
    assert Split("") == [""];
    assert Split("b") == ["b"];
    assert Split(".b") == ["", "b"] && ["", "b"][1..] == ["b"];
    assert ['a'] + "" == "a";
    assert ["a", "b"][1..] == ["b"] && Join(["b"]) == "b";
    assert "a" + "." + "b" == "a.b";
  }

  lemma ABIsOk()
    ensures RefOk(OUTSIDE, []) && RefOk(INSIDE, [Some("a.b")])
  {
    SplitAB();
    var parts := Split("a.b");
    assert parts[..2] == parts && parts[2..] == [] && parts[1..] == ["b"];
  }

  lemma ReadAfterIsOk()
    ensures StepsOk(READ_AFTER, [])
  {
    ABIsOk();
    var inner := Enter(Node(For(OUTSIDE)), []);
    assert inner == [Some("a.b")];
    assert BODY[1..] == [Print(Raw, [INSIDE])] && BODY[1..][1..] == [];
    assert StepOk(BODY[0], inner) && StepOk(BODY[1], inner);
    assert StepsOk(BODY[1..], inner);
    assert StepsOk(BODY, inner);
    assert StepOk(READ_AFTER[0], []) && READ_AFTER[1..] == [];
  }

  // The body, entered over a list of one empty list: the entry of the outer loop is gone when
  // the name is read.
  lemma BodyRuns(st: State, data: Data)
    requires st.forIndex == map["a.b" := ([List([])], 0)] && st.defines == map[]
    requires data == map["a" := Obj(map["b" := List([List([])])])]
    ensures Exec(BODY, st, data, Prepared) == Outcome(st.(forIndex := map[]), Some(UnknownReference))
    ensures Exec(BODY, st, data, ByName) == Outcome(st.(forIndex := map[]), Some(TypeError))
  {
    InnerGone(st, data, Prepared);
    InnerGone(st, data, ByName);
    ReadsGone(st.(forIndex := map[]), data);
    assert BODY[1..] == [Print(Raw, [INSIDE])];
  }

  lemma InnerGone(st: State, data: Data, mode: Mode)
    requires st.forIndex == map["a.b" := ([List([])], 0)] && mode != Strict
    ensures ExecStep(BODY[0], st, data, mode) == Outcome(st.(forIndex := map[]), None)
  {
    InsideIsEmpty(st, data, mode);
    EmptyFor(INSIDE, st, data, mode);
    assert Begin("a.b", [], st).forIndex - {"a.b"} == map[];
  }

  lemma InsideIsEmpty(st: State, data: Data, mode: Mode)
    requires st.forIndex == map["a.b" := ([List([])], 0)]
    ensures Get(INSIDE, st, data, mode) == Ok(List([]))
  {
    ABIsOk();
    SameValue(INSIDE, st, data, [Some("a.b")]);
  }

  // A loop over an empty list leaves only the deletion of its entry.
  lemma EmptyFor(list: ValRef, st: State, data: Data, mode: Mode)
    requires list.Ref? && Get(list, st, data, mode) == Ok(List([])) && mode != Strict
    ensures ExecStep(Block(For(list), Absent, []), st, data, mode)
         == Outcome(st.(forIndex := Begin(list.refname, [], st).forIndex - {list.refname}), None)
  {
  }

  lemma ReadsGone(st: State, data: Data)
    requires st.forIndex == map[] && st.defines == map[]
    requires data == map["a" := Obj(map["b" := List([List([])])])]
    ensures ExecStep(Print(Raw, [INSIDE]), st, data, Prepared) == Outcome(st, Some(UnknownReference))
    ensures ExecStep(Print(Raw, [INSIDE]), st, data, ByName) == Outcome(st, Some(TypeError))
  {
    SplitAB();
    var parts := Split("a.b");
    assert parts[1..] == ["b"] && ["b"][1..] == [];
    assert "a.b" != "a" by { assert |"a"| == 1; }
    assert GetPrepared(INSIDE, st, data) == Err(UnknownReference);
    assert Walk(data["a"], ["b"]) == Ok(List([List([])]));
    assert GetByName(INSIDE, st, data) == Ok(List([List([])]));
    var none: seq<ValRef> := [];
    assert [INSIDE][1..] == none;
    assert GetAll([INSIDE], st, data, ByName) == Ok([List([List([])])] + []);
  }

  /** After a lost loop the two lookups can differ: a template that reads a.b after a loop over a.b
      inside a loop over a.b fails under both, but with different errors. */
  lemma LookupsCanDiffer(base: Printer)
    ensures ParseTemplate(Render(READ_AFTER, base), base) == Ok(READ_AFTER)
    ensures var start, data := State(map[], map[], ""), map["a" := Obj(map["b" := List([List([])])])];
            && Exec(READ_AFTER, start, data, Prepared).error == Some(UnknownReference)
            && Exec(READ_AFTER, start, data, ByName).error == Some(TypeError)
  {
    ReadAfterIsOk();
    RenderThenCompile(READ_AFTER, base);
    var start, data := State(map[], map[], ""), map["a" := Obj(map["b" := List([List([])])])];
    OuterEnters(start, data, Prepared);
    OuterEnters(start, data, ByName);
    BodyRuns(Begin("a.b", [List([])], start), data);
  }

  lemma OuterEnters(st: State, data: Data, mode: Mode)
    requires st.forIndex == map[] && st.defines == map[]
    requires data == map["a" := Obj(map["b" := List([List([])])])]
    ensures ExecStep(READ_AFTER[0], st, data, mode) ==
            ForLoop("a.b", [List([])], 0, BODY, Begin("a.b", [List([])], st), data, mode)
  {
    var items := [List([])];
    ABIsOk();
    SameValue(OUTSIDE, st, data, []);
    assert Walk(data["a"], ["b"]) == Ok(List(items)) by { assert ["b"][1..] == []; }
    assert Get(OUTSIDE, st, data, mode) == Ok(List(items));
    ForEnters(OUTSIDE, Absent, BODY, st, data, mode, items);
  }
}
