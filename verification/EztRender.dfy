/** Writing a program back as a template. Rendering a well-formed program and compiling
    the result gives the same program, and every compiled program is well formed. */
module EztRender {
  import opened Wrappers
  import opened EztSyntax
  import opened EztCompiler

  /* ----- rendering ----- */

  function Source(ref: ValRef): string {
    match ref
    case Const(text) => ['"'] + text + ['"']
    case Ref(refname, _, _) => refname
  }

  function Sources(refs: seq<ValRef>): (r: seq<string>)
    ensures |r| == |refs|
  {
    if refs == [] then [] else [Source(refs[0])] + Sources(refs[1..])
  }

  function PrinterName(p: Printer): string {
    match p
    case Raw => "raw"
    case Html => "html"
    case Xml => "xml"
  }

  const END := Directive(EndWord, [])

  const ELSE := Directive(ElseWord, [])

  function OpenToken(cmd: Command): Token {
    match cmd
    case IfAny(refs) => Directive(IfAnyWord, Sources(refs))
    case IfIndex(ref, None) => Directive(IfIndexWord, [Source(ref)])
    case IfIndex(ref, Some(v)) => Directive(IfIndexWord, [Source(ref), v])
    case Is(left, right) => Directive(IsWord, [Source(left), Source(right)])
    case For(list) => Directive(ForWord, [Source(list)])
    case Define(None) => Directive(DefineWord, [])
    case Define(Some(n)) => Directive(DefineWord, [n])
  }

  function RenderStep(step: Step, printer: Printer): seq<Token>
    decreases step, 1
  {
    match step
    case Text(s) => [TextToken(s)]
    case Print(p, refs) =>
      var shown := Directive(PrintWord, Sources(refs));
      if p == printer then [shown]
      else [Directive(FormatWord, [Source(Const(PrinterName(p)))]), shown, END]
    case Include(file) => [Directive(IncludeWord, [Source(file)])]
    case Block(cmd, Absent, body) => [OpenToken(cmd)] + Render(body, printer) + [END]
    case Block(cmd, Present(t), body) =>
      [OpenToken(cmd)] + (Render(t, printer) + [ELSE] + Render(body, printer)) + [END]
  }

  function Render(steps: seq<Step>, printer: Printer): seq<Token>
    decreases steps, 0
  {
    if steps == [] then [] else RenderStep(steps[0], printer) + Render(steps[1..], printer)
  }

  /* ----- well-formed programs ----- */

  predicate RefOk(ref: ValRef, names: Names) {
    PrepareRef(Source(ref), names) == Ok(ref)
  }

  predicate CommandOk(cmd: Command, names: Names) {
    match cmd
    case IfAny(refs) => forall r :: r in refs ==> RefOk(r, names)
    case IfIndex(ref, _) => RefOk(ref, names)
    case Is(left, right) => RefOk(left, names) && RefOk(right, names)
    case For(list) => RefOk(list, names)
    case Define(_) => true
  }

  predicate StepOk(step: Step, names: Names)
    decreases step, 1
  {
    match step
    case Text(s) => s != ""
    case Print(_, refs) => forall r :: r in refs ==> RefOk(r, names)
    case Include(file) => file.Ref? && RefOk(file, names)
    case Block(cmd, onTrue, body) =>
      && CommandOk(cmd, names)
      && (onTrue.Present? ==> StepsOk(onTrue.steps, Enter(Node(cmd), names)))
      && StepsOk(body, Enter(Node(cmd), names))
  }

  predicate StepsOk(steps: seq<Step>, names: Names)
    decreases steps, 0
  {
    steps == [] || (StepOk(steps[0], names) && StepsOk(steps[1..], names))
  }

  /* ----- print, then compile ----- */

  lemma PrepareSources(refs: seq<ValRef>, names: Names)
    requires forall r :: r in refs ==> RefOk(r, names)
    ensures PrepareAll(Sources(refs), names) == Ok(refs)
  {
    if refs != [] {
      PrepareSources(refs[1..], names);
      assert RefOk(refs[0], names);
      assert Sources(refs)[0] == Source(refs[0]) && Sources(refs)[1..] == Sources(refs[1..]);
      assert [refs[0]] + refs[1..] == refs;
    }
  }

  lemma ConstOk(text: string, names: Names)
    ensures RefOk(Const(text), names)
  {
    assert Unquote(['"'] + text + ['"']) == text;
  }

  lemma OpenTokenOpens(cmd: Command, names: Names, printer: Printer)
    requires CommandOk(cmd, names)
    ensures var t := OpenToken(cmd);
            && !IsElse(t) && !IsEnd(t)
            && Interpret(t.word, t.args, names, printer) == Ok(Opens(Node(cmd)))
  {
    if cmd.IfAny? {
      PrepareSources(cmd.refs, names);
    }
  }

  lemma PrintInterprets(p: Printer, refs: seq<ValRef>, names: Names)
    requires StepOk(Print(p, refs), names)
    ensures Interpret(PrintWord, Sources(refs), names, p) == Ok(Plain(Print(p, refs)))
  {
    PrepareSources(refs, names);
  }

  // The closing 'end' of a block, after a section that parses to 'steps'.
  lemma SectionThenEnd(toks: seq<Token>, rest: seq<Token>, onTrue: Section, steps: seq<Step>,
                       names: Names, printer: Printer)
    requires ParseSection(toks, names, printer) == Ok((steps, [END] + rest))
    ensures ParseBlock(toks, onTrue, [], names, printer) == Ok((onTrue, steps, rest))
  {
    assert ([END] + rest)[1..] == rest;
    assert [] + steps == steps;
  }

  lemma SectionThenElse(toks: seq<Token>, rest: seq<Token>, onTrue: Section, steps: seq<Step>,
                        names: Names, printer: Printer)
    requires ParseSection(toks, names, printer) == Ok((steps, [ELSE] + rest))
    ensures ParseBlock(toks, onTrue, [], names, printer) == ParseBlock(rest, Present(steps), [], names, printer)
  {
    assert ([ELSE] + rest)[1..] == rest;
    assert [] + steps == steps;
  }

  // A block whose sections parse back, followed by anything.
  lemma BlockParses(cmd: Command, onTrue: Section, body: seq<Step>, names: Names, printer: Printer, rest: seq<Token>)
    requires CommandOk(cmd, names)
    requires var inner, closing := Enter(Node(cmd), names), [END] + rest;
             && ParseSection(Render(body, printer) + closing, inner, printer) == Ok((body, closing))
             && (onTrue.Present? ==>
                   var middle := [ELSE] + (Render(body, printer) + closing);
                   ParseSection(Render(onTrue.steps, printer) + middle, inner, printer) == Ok((onTrue.steps, middle)))
    ensures ParsesBack(Block(cmd, onTrue, body), names, printer, rest)
  {
    var toks := RenderStep(Block(cmd, onTrue, body), printer) + rest;
    var inner := Enter(Node(cmd), names);
    var after := Render(body, printer) + ([END] + rest);
    BlockTokens(cmd, onTrue, body, printer, rest);
    OpenTokenOpens(cmd, names, printer);
    SectionThenEnd(after, rest, onTrue, body, inner, printer);
    if onTrue.Present? {
      SectionThenElse(toks[1..], after, Absent, onTrue.steps, inner, printer);
    }
    var opening := OpenToken(cmd);
    OpeningItem(opening.word, opening.args, toks[1..], names, printer, Node(cmd));
  }

  lemma BlockTokens(cmd: Command, onTrue: Section, body: seq<Step>, printer: Printer, rest: seq<Token>)
    ensures var toks := RenderStep(Block(cmd, onTrue, body), printer) + rest;
            var after := Render(body, printer) + ([END] + rest);
            && toks != [] && toks[0] == OpenToken(cmd)
            && toks[1..] == if onTrue.Present? then Render(onTrue.steps, printer) + ([ELSE] + after) else after
  {
    var b := Render(body, printer);
    match onTrue
    case Absent => Bracketed(OpenToken(cmd), b, END, rest);
    case Present(steps) =>
      var t := Render(steps, printer);
      Bracketed(OpenToken(cmd), t + [ELSE] + b, END, rest);
      Regroup(t, [ELSE], b, [END] + rest);
  }

  lemma Bracketed(first: Token, middle: seq<Token>, last: Token, rest: seq<Token>)
    ensures ([first] + middle + [last] + rest)[0] == first
    ensures ([first] + middle + [last] + rest)[1..] == middle + ([last] + rest)
  {
  }

  lemma Regroup(a: seq<Token>, b: seq<Token>, c: seq<Token>, d: seq<Token>)
    ensures (a + b + c) + d == a + (b + (c + d))
  {
  }

  ghost predicate ParsesBack(step: Step, names: Names, printer: Printer, rest: seq<Token>) {
    var toks := RenderStep(step, printer) + rest;
    && toks != [] && !IsElse(toks[0]) && !IsEnd(toks[0])
    && ParseItem(toks[0], toks[1..], names, printer) == Ok(([step], rest))
  }

  // One rendered step, followed by anything, parses to that step.
  lemma {:induction false} StepParses(step: Step, names: Names, printer: Printer, rest: seq<Token>)
    requires StepOk(step, names)
    ensures ParsesBack(step, names, printer, rest)
    decreases step, 1
  {
    if !step.Block? {
      PlainParses(step, names, printer, rest);
    } else {
      var cmd, onTrue, body := step.cmd, step.onTrue, step.body;
      var inner := Enter(Node(cmd), names);
      StepsParse(body, inner, printer, [END] + rest);
      if onTrue.Present? {
        StepsParse(onTrue.steps, inner, printer, [ELSE] + (Render(body, printer) + ([END] + rest)));
      }
      BlockParses(cmd, onTrue, body, names, printer, rest);
    }
  }

  lemma PlainParses(step: Step, names: Names, printer: Printer, rest: seq<Token>)
    requires StepOk(step, names) && !step.Block?
    ensures ParsesBack(step, names, printer, rest)
  {
    if step.Print? && step.printer != printer {
      FormatParses(step.printer, step.refs, names, printer, rest);
    } else {
      assert (RenderStep(step, printer) + rest)[1..] == rest;
      if step.Print? {
        PrintInterprets(step.printer, step.refs, names);
      }
    }
  }

  lemma FormatParses(p: Printer, refs: seq<ValRef>, names: Names, printer: Printer, rest: seq<Token>)
    requires StepOk(Print(p, refs), names) && p != printer
    ensures ParsesBack(Print(p, refs), names, printer, rest)
  {
    var opening := Directive(FormatWord, [Source(Const(PrinterName(p)))]);
    var shown := Directive(PrintWord, Sources(refs));
    var inside := [shown] + ([END] + rest);
    var toks := RenderStep(Print(p, refs), printer) + rest;
    assert toks[0] == opening && toks[1..] == inside;
    FormatOpens(p, names, printer);
    FormatInside(p, refs, names, rest);
    OpeningItem(opening.word, opening.args, inside, names, printer, FormatBlock(p));
  }

  lemma FormatOpens(p: Printer, names: Names, printer: Printer)
    ensures Interpret(FormatWord, [Source(Const(PrinterName(p)))], names, printer) == Ok(Opens(FormatBlock(p)))
  {
    ConstOk(PrinterName(p), names);
  }

  // The inside of a format block around one print.
  lemma FormatInside(p: Printer, refs: seq<ValRef>, names: Names, rest: seq<Token>)
    requires StepOk(Print(p, refs), names)
    ensures var inside := [Directive(PrintWord, Sources(refs))] + ([END] + rest);
            ParseBlock(inside, Absent, [], names, p) == Ok((Absent, [Print(p, refs)], rest))
  {
    var shown := Directive(PrintWord, Sources(refs));
    var inside := [shown] + ([END] + rest);
    PrintInterprets(p, refs, names);
    assert inside[1..] == [END] + rest;
    assert ParseItem(shown, [END] + rest, names, p) == Ok(([Print(p, refs)], [END] + rest));
    assert ParseSection([END] + rest, names, p) == Ok(([], [END] + rest));
    SectionItem(inside, names, p, ([Print(p, refs)], [END] + rest));
    assert [Print(p, refs)] + [] == [Print(p, refs)];
    SectionThenEnd(inside, rest, Absent, [Print(p, refs)], names, p);
  }

  lemma {:induction false} StepsParse(steps: seq<Step>, names: Names, printer: Printer, rest: seq<Token>)
    requires StepsOk(steps, names)
    requires rest == [] || IsElse(rest[0]) || IsEnd(rest[0])
    ensures ParseSection(Render(steps, printer) + rest, names, printer) == Ok((steps, rest))
    decreases steps, 0
  {
    var toks := Render(steps, printer) + rest;
    if steps == [] {
      assert toks == rest;
    } else {
      var after := Render(steps[1..], printer) + rest;
      assert toks == RenderStep(steps[0], printer) + after;
      StepParses(steps[0], names, printer, after);
      StepsParse(steps[1..], names, printer, rest);
      StepThenSteps(steps, toks, after, names, printer, rest);
    }
  }

  lemma {:induction false} StepThenSteps(steps: seq<Step>, toks: seq<Token>, after: seq<Token>, names: Names,
                                         printer: Printer, rest: seq<Token>)
    requires steps != [] && toks == RenderStep(steps[0], printer) + after
    requires ParsesBack(steps[0], names, printer, after)
    requires ParseSection(after, names, printer) == Ok((steps[1..], rest))
    ensures ParseSection(toks, names, printer) == Ok((steps, rest))
  {
    SectionItem(toks, names, printer, ([steps[0]], after));
    assert [steps[0]] + steps[1..] == steps;
  }

  /** Print then compile is the identity on well-formed programs. */
  lemma RenderThenCompile(program: seq<Step>, base: Printer)
    requires StepsOk(program, [])
    ensures ParseTemplate(Render(program, base), base) == Ok(program)
  {
    assert Render(program, base) + [] == Render(program, base);
    StepsParse(program, [], base, []);
  }

  /* ----- compiled programs are well formed ----- */

  lemma PreparedIsOk(arg: string, names: Names)
    requires PrepareRef(arg, names).Ok?
    ensures RefOk(PrepareRef(arg, names).value, names)
    ensures PrepareRef(arg, names).value.Ref? ==> Source(PrepareRef(arg, names).value) == arg
  {
    var ref := PrepareRef(arg, names).value;
    if ref.Const? {
      ConstOk(ref.text, names);
    }
  }

  lemma PreparedAreOk(args: seq<string>, names: Names)
    requires PrepareAll(args, names).Ok?
    ensures forall r :: r in PrepareAll(args, names).value ==> RefOk(r, names)
  {
    var refs := PrepareAll(args, names).value;
    forall i | 0 <= i < |refs|
      ensures RefOk(refs[i], names)
    {
      PreparedIsOk(args[i], names);
    }
  }

  lemma InterpretedIsOk(word: Word, args: seq<string>, names: Names, printer: Printer)
    requires Interpret(word, args, names, printer).Ok?
    ensures var meaning := Interpret(word, args, names, printer).value;
            && (meaning.Plain? ==> StepOk(meaning.step, names))
            && (meaning.Opens? && meaning.opening.Node? ==> CommandOk(meaning.opening.cmd, names))
  {
    match word
    case IncludeWord => PreparedIsOk(args[0], names);
    case IfAnyWord => PreparedAreOk(args, names);
    case PrintWord => PreparedAreOk(args, names);
    case _ => OpenedIsOk(word, args, names);
  }

  lemma OpenedIsOk(word: Word, args: seq<string>, names: Names)
    requires OpenBlock(word, args, names).Ok?
    ensures var opening := OpenBlock(word, args, names).value;
            opening.Node? ==> CommandOk(opening.cmd, names)
  {
    if word != DefineWord {
      PreparedIsOk(args[0], names);
      if word == IsWord {
        PreparedIsOk(args[1], names);
      }
    }
  }

  lemma OneStepOk(step: Step, names: Names)
    requires StepOk(step, names)
    ensures StepsOk([step], names)
  {
    assert [step][1..] == [];
  }

  lemma StepsOkConcat(a: seq<Step>, b: seq<Step>, names: Names)
    requires StepsOk(a, names) && StepsOk(b, names)
    ensures StepsOk(a + b, names)
  {
    if a == [] {
      assert a + b == b;
    } else {
      StepsOkConcat(a[1..], b, names);
      assert (a + b)[1..] == a[1..] + b;
    }
  }

  lemma {:induction false} ParsedSectionOk(toks: seq<Token>, names: Names, printer: Printer)
    requires ParseSection(toks, names, printer).Ok?
    ensures StepsOk(ParseSection(toks, names, printer).value.0, names)
    decreases |toks|, 0
  {
    if toks == [] || IsElse(toks[0]) || IsEnd(toks[0]) {
    } else {
      var item := ParseItem(toks[0], toks[1..], names, printer).value;
      ParsedItemOk(toks[0], toks[1..], names, printer);
      ParsedSectionOk(item.1, names, printer);
      StepsOkConcat(item.0, ParseSection(item.1, names, printer).value.0, names);
    }
  }

  lemma ClosedIsOk(opening: Opening, onTrue: Section, body: seq<Step>, names: Names)
    requires opening.Node? ==> CommandOk(opening.cmd, names)
    requires onTrue.Present? ==> StepsOk(onTrue.steps, Enter(opening, names))
    requires StepsOk(body, Enter(opening, names))
    ensures StepsOk(Close(opening, onTrue, body), names)
  {
    if opening.Node? {
      OneStepOk(Block(opening.cmd, onTrue, body), names);
    }
  }

  lemma {:induction false} ParsedItemOk(tok: Token, rest: seq<Token>, names: Names, printer: Printer)
    requires !IsElse(tok) && !IsEnd(tok)
    requires ParseItem(tok, rest, names, printer).Ok?
    ensures StepsOk(ParseItem(tok, rest, names, printer).value.0, names)
    decreases |rest|, 2
  {
    match tok
    case TextToken(s) =>
      if s != "" {
        OneStepOk(Text(s), names);
      }
    case BracketToken =>
      OneStepOk(Text("["), names);
    case Directive(word, args) =>
      InterpretedIsOk(word, args, names, printer);
      var meaning := Interpret(word, args, names, printer).value;
      if meaning.Opens? {
        var inner := Enter(meaning.opening, names);
        var printer' := EnterPrinter(meaning.opening, printer);
        ParsedBlockOk(rest, Absent, [], inner, printer');
        var block := ParseBlock(rest, Absent, [], inner, printer').value;
        ClosedIsOk(meaning.opening, block.0, block.1, names);
      } else {
        OneStepOk(meaning.step, names);
      }
  }

  lemma {:induction false} ParsedBlockOk(toks: seq<Token>, onTrue: Section, acc: seq<Step>,
                                         names: Names, printer: Printer)
    requires onTrue.Present? ==> StepsOk(onTrue.steps, names)
    requires StepsOk(acc, names)
    requires ParseBlock(toks, onTrue, acc, names, printer).Ok?
    ensures var block := ParseBlock(toks, onTrue, acc, names, printer).value;
            && (block.0.Present? ==> StepsOk(block.0.steps, names))
            && StepsOk(block.1, names)
    decreases |toks|, 1
  {
    var section := ParseSection(toks, names, printer).value;
    ParsedSectionOk(toks, names, printer);
    StepsOkConcat(acc, section.0, names);
    if IsElse(section.1[0]) {
      ParsedBlockOk(section.1[1..], Present(acc + section.0), [], names, printer);
    }
  }

  /* ----- rendered tokens as text ----- */

  function ItemOf(word: Word): string
    requires word != PrintWord
  {
    match word
    case ElseWord => "else"
    case EndWord => "end"
    case IfIndexWord => "if-index"
    case ForWord => "for"
    case IsWord => "is"
    case DefineWord => "define"
    case FormatWord => "format"
    case IncludeWord => "include"
    case IfAnyWord => "if-any"
  }

  function Items(word: Word, args: seq<string>): seq<string> {
    if word == PrintWord then args else [ItemOf(word)] + args
  }

  /** A directive written out as its items is read back as the same directive, except for
      a print that has no item or whose first item is a command word. */
  lemma LexItems(word: Word, args: seq<string>)
    ensures (word == PrintWord ==> args != [] && WordOf(args[0]) == PrintWord)
            <==> (Items(word, args) != [] && Lex(Items(word, args)) == Directive(word, args))
  {
    if word != PrintWord {
      assert WordOf(ItemOf(word)) == word;
      assert Items(word, args)[1..] == args;
    }
  }

  /** Every compiled program is well formed, so rendering it and compiling again gives it
      back: the compiler's image is exactly the well-formed programs. */
  lemma CompileRenderCompile(toks: seq<Token>, base: Printer)
    requires ParseTemplate(toks, base).Ok?
    ensures var program := ParseTemplate(toks, base).value;
            StepsOk(program, []) && ParseTemplate(Render(program, base), base) == Ok(program)
  {
    ParsedSectionOk(toks, [], base);
    RenderThenCompile(ParseTemplate(toks, base).value, base);
  }
}
