/** The literal text of a template survives compilation: read left to right through all its
    sections, a program holds exactly the text of the tokens it was compiled from. */
module EztText {
  import opened Wrappers
  import opened EztSyntax
  import opened EztCompiler
  import opened EztGrammar

  /* ----- text ----- */

  // The text of the tokens; a bracket token stands for an opening bracket.
  function Literal(toks: seq<Token>): string {
    if toks == [] then ""
    else
      (match toks[0]
       case TextToken(s) => s
       case BracketToken => "["
       case Directive(_, _) => "") + Literal(toks[1..])
  }

  function StepText(step: Step): string
    decreases step, 1
  {
    match step
    case Text(s) => s
    case Block(_, onTrue, body) => SectionText(onTrue) + TextOf(body)
    case _ => ""
  }

  function SectionText(section: Section): string
    decreases section, 1
  {
    match section
    case Absent => ""
    case Present(steps) => TextOf(steps)
  }

  function TextOf(steps: seq<Step>): string
    decreases steps, 0
  {
    if steps == [] then "" else StepText(steps[0]) + TextOf(steps[1..])
  }

  lemma {:induction false} TextConcat(a: seq<Step>, b: seq<Step>)
    ensures TextOf(a + b) == TextOf(a) + TextOf(b)
    decreases |a|
  {
    if a == [] {
      assert a + b == b;
    } else {
      assert (a + b)[0] == a[0] && (a + b)[1..] == a[1..] + b;
      TextConcat(a[1..], b);
    }
  }

  lemma TextOne(step: Step)
    ensures TextOf([step]) == StepText(step)
  {
    assert [step][1..] == [];
  }

  /* ----- templates with at most one 'else' in a block ----- */

  // An open block: whether it is a format block, and whether it has had an 'else'.
  datatype Shape = Shape(format: bool, seen: bool)

  // No block has a second 'else', and no format block has one.
  predicate Tidy(toks: seq<Token>, open: seq<Shape>)
    decreases |toks|
  {
    toks == [] ||
      var tok, rest, n := toks[0], toks[1..], |open| - 1;
      if IsElse(tok) then n >= 0 && open[n] == Shape(false, false) && Tidy(rest, open[n := Shape(false, true)])
      else if IsEnd(tok) then n >= 0 && Tidy(rest, open[..n])
      else if IsBlock(tok) then Tidy(rest, open + [Shape(tok.word == FormatWord, false)])
      else Tidy(rest, open)
  }

  function ShapeOf(frame: Frame): Shape {
    Shape(frame.opening.FormatBlock?, frame.section.Present?)
  }

  // The open blocks of the machine have the shapes.
  predicate Shaped(open: seq<Shape>, stack: seq<Frame>) {
    |open| == |stack| && forall i :: 0 <= i < |stack| ==> open[i] == ShapeOf(stack[i])
  }

  // No format block has set a section aside.
  predicate FormatsWhole(stack: seq<Frame>) {
    forall i :: 0 <= i < |stack| && stack[i].opening.FormatBlock? ==> stack[i].section == Absent
  }

  /* ----- the text of the machine ----- */

  function MachineText(program: seq<Step>, stack: seq<Frame>): string
    requires Positions(stack, |program|)
    decreases |stack|
  {
    if stack == [] then TextOf(program)
    else
      var n := |stack| - 1;
      var top := stack[n];
      MachineText(program[..top.idx], stack[..n]) + SectionText(top.section) + TextOf(program[top.idx..])
  }

  lemma Assoc(a: string, b: string, c: string)
    ensures a + (b + c) == a + b + c
  {
  }

  // Steps added to the program add their text.
  lemma {:induction false} TextGrows(program: seq<Step>, steps: seq<Step>, stack: seq<Frame>)
    requires Positions(stack, |program|)
    ensures MachineText(program + steps, stack) == MachineText(program, stack) + TextOf(steps)
  {
    if stack == [] {
      TextConcat(program, steps);
    } else {
      var n := |stack| - 1;
      var top := stack[n];
      assert (program + steps)[..top.idx] == program[..top.idx];
      assert (program + steps)[top.idx..] == program[top.idx..] + steps;
      TextConcat(program[top.idx..], steps);
      Assoc(MachineText(program[..top.idx], stack[..n]) + SectionText(top.section), TextOf(program[top.idx..]),
            TextOf(steps));
    }
  }

  lemma {:induction false} PushText(m: Machine, opening: Opening)
    requires Positions(m.stack, |m.program|)
    ensures Positions(Pushed(m, opening).stack, |m.program|)
    ensures MachineText(Pushed(m, opening).program, Pushed(m, opening).stack) == MachineText(m.program, m.stack)
  {
    var stack := Pushed(m, opening).stack;
    var n := |m.stack|;
    assert stack[..n] == m.stack && stack[n] == Frame(opening, |m.program|, Absent);
    assert m.program[..|m.program|] == m.program && m.program[|m.program|..] == [];
  }

  lemma {:induction false} AsideText(m: Machine)
    requires Usable(m) && m.stack != [] && Positions(m.stack, |m.program|)
    requires m.stack[|m.stack| - 1].section == Absent
    ensures Positions(Aside(m).stack, |Aside(m).program|)
    ensures MachineText(Aside(m).program, Aside(m).stack) == MachineText(m.program, m.stack)
  {
    var n := |m.stack| - 1;
    var top, m' := m.stack[n], Aside(m);
    assert m'.stack[..n] == m.stack[..n];
    assert m'.program[..top.idx] == m'.program == m.program[..top.idx] && m'.program[top.idx..] == [];
  }

  // Closing a block adds the text of its sections to what is around it.
  lemma {:induction false} CloseText(before: seq<Step>, outer: seq<Frame>, opening: Opening, onTrue: Section,
                                     body: seq<Step>)
    requires Positions(outer, |before|) && (opening.FormatBlock? ==> onTrue == Absent)
    ensures MachineText(before + Close(opening, onTrue, body), outer)
         == MachineText(before, outer) + SectionText(onTrue) + TextOf(body)
  {
    TextGrows(before, Close(opening, onTrue, body), outer);
    match opening
    case Node(cmd) =>
      TextOne(Block(cmd, onTrue, body));
      Assoc(MachineText(before, outer), SectionText(onTrue), TextOf(body));
    case FormatBlock(_) => NoText(MachineText(before, outer));
  }

  lemma NoText(s: string)
    ensures s + "" == s
  {
  }

  lemma {:induction false} PopText(m: Machine)
    requires Usable(m) && m.stack != [] && Positions(m.stack, |m.program|)
    requires var top := m.stack[|m.stack| - 1]; top.opening.FormatBlock? ==> top.section == Absent
    ensures var top := m.stack[|m.stack| - 1];
            var m' := Popped(m, top.section, m.program[top.idx..]);
            Positions(m'.stack, |m'.program|) && MachineText(m'.program, m'.stack) == MachineText(m.program, m.stack)
  {
    var n := |m.stack| - 1;
    var top := m.stack[n];
    CloseText(m.program[..top.idx], m.stack[..n], top.opening, top.section, m.program[top.idx..]);
  }

  /* ----- one turn ----- */

  function TokenText(tok: Token): string {
    match tok
    case TextToken(s) => s
    case BracketToken => "["
    case Directive(_, _) => ""
  }

  // The blocks that are open after the token.
  function Reshaped(tok: Token, open: seq<Shape>): seq<Shape> {
    var n := |open| - 1;
    if IsElse(tok) then if n >= 0 then open[n := Shape(false, true)] else open
    else if IsEnd(tok) then if n >= 0 then open[..n] else open
    else if IsBlock(tok) then open + [Shape(tok.word == FormatWord, false)]
    else open
  }

  // A tidy token: an 'else' is the first of a block that is not a format block.
  predicate TidyToken(tok: Token, open: seq<Shape>) {
    IsElse(tok) ==> open != [] && open[|open| - 1] == Shape(false, false)
  }

  // The machine has gained the text.
  ghost predicate Gained(m: Machine, m': Machine, text: string) {
    && Positions(m.stack, |m.program|) && Positions(m'.stack, |m'.program|)
    && MachineText(m'.program, m'.stack) == MachineText(m.program, m.stack) + text
  }

  lemma SameText(m: Machine, m': Machine)
    requires Positions(m.stack, |m.program|) && Positions(m'.stack, |m'.program|)
    requires MachineText(m'.program, m'.stack) == MachineText(m.program, m.stack)
    ensures Gained(m, m', "")
  {
    var text := MachineText(m.program, m.stack);
    assert text + "" == text;
  }

  lemma {:induction false} StepAdds(m: Machine, step: Step)
    requires Positions(m.stack, |m.program|)
    ensures Gained(m, m.(program := m.program + [step]), StepText(step))
  {
    TextGrows(m.program, [step], m.stack);
    TextOne(step);
  }

  lemma {:induction false} DirectiveGains(m: Machine, word: Word, args: seq<string>)
    requires Usable(m) && Positions(m.stack, |m.program|)
    requires word != ElseWord && word != EndWord && Turn(m, Directive(word, args)).Ok?
    ensures Gained(m, Turn(m, Directive(word, args)).value, "")
  {
    match Interpret(word, args, m.names, Current(m)).value
    case Plain(step) =>
      PlainHasNoText(word, args, m.names, Current(m), step);
      PlainGains(m, step);
    case Opens(opening) => OpeningGains(m, opening);
  }

  lemma {:induction false} PlainGains(m: Machine, step: Step)
    requires Positions(m.stack, |m.program|) && StepText(step) == ""
    ensures Gained(m, m.(program := m.program + [step]), "")
  {
    StepAdds(m, step);
  }

  lemma {:induction false} OpeningGains(m: Machine, opening: Opening)
    requires Positions(m.stack, |m.program|)
    ensures Gained(m, Pushed(m, opening), "")
  {
    PushText(m, opening);
    SameText(m, Pushed(m, opening));
  }

  lemma PlainHasNoText(word: Word, args: seq<string>, names: Names, printer: Printer, step: Step)
    requires Interpret(word, args, names, printer) == Ok(Plain(step))
    ensures StepText(step) == ""
  {
  }

  lemma {:induction false} TextGains(m: Machine, s: string)
    requires Usable(m) && Positions(m.stack, |m.program|)
    ensures Gained(m, Turn(m, TextToken(s)).value, s)
  {
    if s == "" {
      SameText(m, m);
    } else {
      StepAdds(m, Text(s));
    }
  }

  lemma {:induction false} BracketGains(m: Machine)
    requires Usable(m) && Positions(m.stack, |m.program|)
    ensures Gained(m, Turn(m, BracketToken).value, "[")
  {
    StepAdds(m, Text("["));
  }

  lemma {:induction false} ElseGains(m: Machine, args: seq<string>)
    requires Usable(m) && Positions(m.stack, |m.program|) && Turn(m, Directive(ElseWord, args)).Ok?
    requires m.stack != [] ==> m.stack[|m.stack| - 1].section == Absent
    ensures Gained(m, Turn(m, Directive(ElseWord, args)).value, "")
  {
    AsideText(m);
    SameText(m, Aside(m));
  }

  lemma {:induction false} EndGains(m: Machine, args: seq<string>)
    requires Usable(m) && Positions(m.stack, |m.program|) && FormatsWhole(m.stack)
    requires Turn(m, Directive(EndWord, args)).Ok?
    ensures Gained(m, Turn(m, Directive(EndWord, args)).value, "")
  {
    PopText(m);
    var top := m.stack[|m.stack| - 1];
    SameText(m, Popped(m, top.section, m.program[top.idx..]));
  }

  lemma {:induction false} TurnGains(m: Machine, tok: Token)
    requires Usable(m) && Positions(m.stack, |m.program|) && FormatsWhole(m.stack)
    requires IsElse(tok) && m.stack != [] ==> ShapeOf(m.stack[|m.stack| - 1]) == Shape(false, false)
    requires Turn(m, tok).Ok?
    ensures Gained(m, Turn(m, tok).value, TokenText(tok))
  {
    match tok
    case TextToken(s) => TextGains(m, s);
    case BracketToken => BracketGains(m);
    case Directive(word, args) =>
      if word == ElseWord {
        ElseGains(m, args);
      } else if word == EndWord {
        EndGains(m, args);
      } else {
        DirectiveGains(m, word, args);
      }
  }

  lemma {:induction false} TurnShapes(m: Machine, tok: Token, open: seq<Shape>)
    requires Usable(m) && FormatsWhole(m.stack) && Shaped(open, m.stack) && TidyToken(tok, open)
    requires Turn(m, tok).Ok?
    ensures var m' := Turn(m, tok).value; FormatsWhole(m'.stack) && Shaped(Reshaped(tok, open), m'.stack)
  {
    if tok.Directive? && tok.word != ElseWord && tok.word != EndWord {
      InterpretExactly(tok.word, tok.args, m.names, Current(m));
      var meaning := Interpret(tok.word, tok.args, m.names, Current(m)).value;
      if meaning.Opens? {
        OpensFormat(tok.word, tok.args, m.names, Current(m), meaning.opening);
      }
    }
  }

  lemma OpensFormat(word: Word, args: seq<string>, names: Names, printer: Printer, opening: Opening)
    requires Interpret(word, args, names, printer) == Ok(Opens(opening))
    ensures opening.FormatBlock? <==> word == FormatWord
  {
  }

  /* ----- whole templates ----- */

  lemma TidyNext(toks: seq<Token>, open: seq<Shape>)
    requires toks != [] && Tidy(toks, open)
    ensures TidyToken(toks[0], open) && Tidy(toks[1..], Reshaped(toks[0], open))
  {
  }

  lemma {:induction false} TextFrom(m: Machine, toks: seq<Token>, open: seq<Shape>, base: Printer)
    requires Valid(m, base) && FormatsWhole(m.stack) && Shaped(open, m.stack) && Tidy(toks, open)
    requires Resume(m, toks, base).Ok?
    ensures TextOf(Resume(m, toks, base).value) == MachineText(m.program, m.stack) + Literal(toks)
    decreases |toks|
  {
    if toks == [] {
      EndOfParse(m, toks, base);
      assert MachineText(m.program, m.stack) + "" == MachineText(m.program, m.stack);
    } else {
      var tok, rest := toks[0], toks[1..];
      var m' := NextMachine(m, toks, base);
      TidyNext(toks, open);
      TurnGains(m, tok);
      TurnShapes(m, tok, open);
      TextFrom(m', rest, Reshaped(tok, open), base);
      LiteralNext(MachineText(m.program, m.stack), MachineText(m'.program, m'.stack), toks);
    }
  }

  lemma {:induction false} NextMachine(m: Machine, toks: seq<Token>, base: Printer) returns (m': Machine)
    requires Valid(m, base) && toks != [] && Resume(m, toks, base).Ok?
    ensures Usable(m) && Turn(m, toks[0]) == Ok(m') && Valid(m', base)
    ensures Resume(m', toks[1..], base) == Resume(m, toks, base)
  {
    ValidIsUsable(m, base);
    FirstAndRest(toks);
    FeedFollowsParser(m, toks[0], toks[1..], base);
    var next := Feed(m, toks[0], base);
    FeedIsTurn(m, toks[0], base);
    m' := next.value;
  }

  lemma FirstAndRest(toks: seq<Token>)
    requires toks != []
    ensures toks == [toks[0]] + toks[1..]
  {
  }

  lemma FeedIsTurn(m: Machine, tok: Token, base: Printer)
    requires Valid(m, base) && Usable(m)
    ensures Feed(m, tok, base) == Turn(m, tok)
  {
  }

  lemma LiteralNext(before: string, after: string, toks: seq<Token>)
    requires toks != [] && after == before + TokenText(toks[0])
    ensures after + Literal(toks[1..]) == before + Literal(toks)
  {
    Assoc(before, TokenText(toks[0]), Literal(toks[1..]));
  }

  /** No text is lost, added or moved: for every template that compiles and has at most one 'else'
      in a block and none in a format block, the text of the program is the text of the tokens. */
  lemma TextIsKept(toks: seq<Token>, base: Printer)
    requires ParseTemplate(toks, base).Ok? && Tidy(toks, [])
    ensures TextOf(ParseTemplate(toks, base).value) == Literal(toks)
  {
    StartOfParse(toks, base);
    assert toks[0..] == toks;
    TextFrom(Machine([], [], [], [base]), toks, [], base);
    assert "" + Literal(toks) == Literal(toks);
  }
}
