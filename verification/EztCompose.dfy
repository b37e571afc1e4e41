/** How templates compose: a template inside a larger one compiles to the same steps, so that the
    program of a block is the program of its sections. */
module EztCompose {
  import opened Wrappers
  import opened EztSyntax
  import opened EztCompiler
  import opened EztRender
  import opened EztGrammar

  // The tokens make up whole blocks, and compile to the program.
  predicate Compiles(toks: seq<Token>, names: Names, printer: Printer, program: seq<Step>) {
    ParseSection(toks, names, printer) == Ok((program, []))
  }

  lemma CompilesAtTop(toks: seq<Token>, base: Printer, program: seq<Step>)
    ensures Compiles(toks, [], base, program) <==> ParseTemplate(toks, base) == Ok(program)
  {
  }

  /* ----- what follows does not matter ----- */

  lemma {:induction false} ItemThen(tok: Token, toks: seq<Token>, rest: seq<Token>, names: Names, printer: Printer)
    requires ParseItem(tok, toks, names, printer).Ok?
    ensures var item := ParseItem(tok, toks, names, printer).value;
            ParseItem(tok, toks + rest, names, printer) == Ok((item.0, item.1 + rest))
    decreases |toks|, 2
  {
    if tok.Directive? {
      var meaning := Interpret(tok.word, tok.args, names, printer).value;
      if meaning.Opens? {
        var o := meaning.opening;
        BlockThen(toks, rest, Absent, [], Enter(o, names), EnterPrinter(o, printer));
      }
    }
  }

  lemma {:induction false} BlockThen(toks: seq<Token>, rest: seq<Token>, onTrue: Section, acc: seq<Step>, names: Names,
                                     printer: Printer)
    requires ParseBlock(toks, onTrue, acc, names, printer).Ok?
    ensures var block := ParseBlock(toks, onTrue, acc, names, printer).value;
            ParseBlock(toks + rest, onTrue, acc, names, printer) == Ok((block.0, block.1, block.2 + rest))
    decreases |toks|, 1
  {
    var section := ParseSection(toks, names, printer).value;
    var left := section.1;
    SectionStops(toks, rest, names, printer);
    assert (left + rest)[0] == left[0] && (left + rest)[1..] == left[1..] + rest;
    if IsElse(left[0]) {
      BlockThen(left[1..], rest, Present(acc + section.0), [], names, printer);
    }
  }

  // The first item of a section, and the others.
  lemma SectionParts(toks: seq<Token>, names: Names, printer: Printer)
    returns (item: (seq<Step>, seq<Token>), others: (seq<Step>, seq<Token>))
    requires ParseSection(toks, names, printer).Ok? && toks != [] && !IsElse(toks[0]) && !IsEnd(toks[0])
    ensures ParseItem(toks[0], toks[1..], names, printer) == Ok(item) && |item.1| < |toks|
    ensures ParseSection(item.1, names, printer) == Ok(others)
    ensures ParseSection(toks, names, printer) == Ok((item.0 + others.0, others.1))
  {
    item := ParseItem(toks[0], toks[1..], names, printer).value;
    others := ParseSection(item.1, names, printer).value;
  }

  lemma Behind(toks: seq<Token>, rest: seq<Token>)
    requires toks != []
    ensures toks + rest != [] && (toks + rest)[0] == toks[0] && (toks + rest)[1..] == toks[1..] + rest
  {
  }

  // A section that stops at an 'else' or 'end' stops there whatever follows.
  lemma {:induction false} SectionStops(toks: seq<Token>, rest: seq<Token>, names: Names, printer: Printer)
    requires ParseSection(toks, names, printer).Ok? && ParseSection(toks, names, printer).value.1 != []
    ensures var section := ParseSection(toks, names, printer).value;
            ParseSection(toks + rest, names, printer) == Ok((section.0, section.1 + rest))
    decreases |toks|, 0
  {
    Behind(toks, rest);
    if !IsElse(toks[0]) && !IsEnd(toks[0]) {
      var item, others := SectionParts(toks, names, printer);
      ItemThen(toks[0], toks[1..], rest, names, printer);
      SectionStops(item.1, rest, names, printer);
      SectionItem(toks + rest, names, printer, (item.0, item.1 + rest));
    }
  }

  /** One template after another compiles to one program after another. */
  lemma {:induction false} SectionThen(toks: seq<Token>, rest: seq<Token>, names: Names, printer: Printer,
                                       program: seq<Step>)
    requires Compiles(toks, names, printer, program)
    ensures var after := ParseSection(rest, names, printer);
            ParseSection(toks + rest, names, printer) ==
            if after.Err? then after else Ok((program + after.value.0, after.value.1))
    decreases |toks|
  {
    if toks == [] {
      assert toks + rest == rest;
      var after := ParseSection(rest, names, printer);
      assert after.Ok? ==> [] + after.value.0 == after.value.0;
    } else {
      Behind(toks, rest);
      var item, others := SectionParts(toks, names, printer);
      ItemThen(toks[0], toks[1..], rest, names, printer);
      SectionThen(item.1, rest, names, printer, others.0);
      ItemAndOthers(toks + rest, item.0, item.1 + rest, others.0, rest, names, printer, program);
    }
  }

  lemma {:induction false} ItemAndOthers(more: seq<Token>, first: seq<Step>, left: seq<Token>, others: seq<Step>,
                                         rest: seq<Token>, names: Names, printer: Printer, program: seq<Step>)
    requires more != [] && !IsElse(more[0]) && !IsEnd(more[0]) && program == first + others
    requires ParseItem(more[0], more[1..], names, printer) == Ok((first, left))
    requires var after := ParseSection(rest, names, printer);
             ParseSection(left, names, printer) ==
             if after.Err? then after else Ok((others + after.value.0, after.value.1))
    ensures var after := ParseSection(rest, names, printer);
            ParseSection(more, names, printer) ==
            if after.Err? then after else Ok((program + after.value.0, after.value.1))
  {
    SectionItem(more, names, printer, (first, left));
    var after := ParseSection(rest, names, printer);
    if after.Ok? {
      assert first + (others + after.value.0) == program + after.value.0;
    }
  }

  lemma TwoCompile(a: seq<Token>, b: seq<Token>, names: Names, printer: Printer, p: seq<Step>, q: seq<Step>)
    requires Compiles(a, names, printer, p) && Compiles(b, names, printer, q)
    ensures Compiles(a + b, names, printer, p + q)
  {
    SectionThen(a, b, names, printer, p);
  }

  /* ----- blocks ----- */

  // The sections of a block: up to its 'end', or up to an 'else' that sets the section aside.
  lemma SectionEnds(t: seq<Token>, onTrue: Section, names: Names, printer: Printer, program: seq<Step>)
    requires Compiles(t, names, printer, program)
    ensures ParseBlock(t + [END], onTrue, [], names, printer) == Ok((onTrue, program, []))
  {
    SectionThen(t, [END], names, printer, program);
    assert ParseSection([END], names, printer) == Ok(([], [END]));
    assert program + [] == program;
    assert [END] + [] == [END];
    SectionThenEnd(t + [END], [], onTrue, program, names, printer);
  }

  lemma SectionElse(t: seq<Token>, rest: seq<Token>, onTrue: Section, names: Names, printer: Printer,
                    program: seq<Step>)
    requires Compiles(t, names, printer, program)
    ensures ParseBlock(t + ([ELSE] + rest), onTrue, [], names, printer)
         == ParseBlock(rest, Present(program), [], names, printer)
  {
    SectionThen(t, [ELSE] + rest, names, printer, program);
    assert ParseSection([ELSE] + rest, names, printer) == Ok(([], [ELSE] + rest));
    assert program + [] == program;
    SectionThenElse(t + ([ELSE] + rest), rest, onTrue, program, names, printer);
  }

  // A directive that opens a block, and the sections of the block.
  lemma BlockCompiles(tok: Token, inside: seq<Token>, names: Names, printer: Printer, opening: Opening, onTrue: Section,
                      body: seq<Step>)
    requires tok.Directive? && tok.word != ElseWord && tok.word != EndWord
    requires Interpret(tok.word, tok.args, names, printer) == Ok(Opens(opening))
    requires ParseBlock(inside, Absent, [], Enter(opening, names), EnterPrinter(opening, printer)) ==
             Ok((onTrue, body, []))
    ensures Compiles([tok] + inside, names, printer, Close(opening, onTrue, body))
  {
    var toks := [tok] + inside;
    assert toks[1..] == inside;
    OpeningItem(tok.word, tok.args, inside, names, printer, opening);
    var none: seq<Token> := [];
    SectionItem(toks, names, printer, (Close(opening, onTrue, body), none));
    assert ParseSection(none, names, printer) == Ok(([], none));
    assert Close(opening, onTrue, body) + [] == Close(opening, onTrue, body);
  }

  /** A block without 'else': its program is the one node, with the program of its section. */
  lemma SimpleBlock(tok: Token, t: seq<Token>, names: Names, printer: Printer, opening: Opening, body: seq<Step>)
    requires tok.Directive? && tok.word != ElseWord && tok.word != EndWord
    requires Interpret(tok.word, tok.args, names, printer) == Ok(Opens(opening))
    requires Compiles(t, Enter(opening, names), EnterPrinter(opening, printer), body)
    ensures Compiles([tok] + (t + [END]), names, printer, Close(opening, Absent, body))
  {
    SectionEnds(t, Absent, Enter(opening, names), EnterPrinter(opening, printer), body);
    BlockCompiles(tok, t + [END], names, printer, opening, Absent, body);
  }

  /** A block with one 'else'. */
  lemma ElseBlock(tok: Token, t: seq<Token>, f: seq<Token>, names: Names, printer: Printer, opening: Opening,
                  onTrue: seq<Step>, body: seq<Step>)
    requires tok.Directive? && tok.word != ElseWord && tok.word != EndWord
    requires Interpret(tok.word, tok.args, names, printer) == Ok(Opens(opening))
    requires Compiles(t, Enter(opening, names), EnterPrinter(opening, printer), onTrue)
    requires Compiles(f, Enter(opening, names), EnterPrinter(opening, printer), body)
    ensures Compiles([tok] + (t + ([ELSE] + (f + [END]))), names, printer, Close(opening, Present(onTrue), body))
  {
    var inner, p := Enter(opening, names), EnterPrinter(opening, printer);
    SectionElse(t, f + [END], Absent, inner, p, onTrue);
    SectionEnds(f, Present(onTrue), inner, p, body);
    BlockCompiles(tok, t + ([ELSE] + (f + [END])), names, printer, opening, Present(onTrue), body);
  }

  /** A second 'else': the section before the first one is gone, whatever it holds. */
  lemma SecondElse(tok: Token, s: seq<Token>, t: seq<Token>, f: seq<Token>, names: Names, printer: Printer,
                   opening: Opening, gone: seq<Step>, onTrue: seq<Step>, body: seq<Step>)
    requires tok.Directive? && tok.word != ElseWord && tok.word != EndWord
    requires Interpret(tok.word, tok.args, names, printer) == Ok(Opens(opening))
    requires Compiles(s, Enter(opening, names), EnterPrinter(opening, printer), gone)
    requires Compiles(t, Enter(opening, names), EnterPrinter(opening, printer), onTrue)
    requires Compiles(f, Enter(opening, names), EnterPrinter(opening, printer), body)
    ensures Compiles([tok] + (s + ([ELSE] + (t + ([ELSE] + (f + [END]))))), names, printer,
                     Close(opening, Present(onTrue), body))
    ensures Compiles([tok] + (t + ([ELSE] + (f + [END]))), names, printer, Close(opening, Present(onTrue), body))
  {
    var inner, p := Enter(opening, names), EnterPrinter(opening, printer);
    ElseBlock(tok, t, f, names, printer, opening, onTrue, body);
    SectionElse(s, t + ([ELSE] + (f + [END])), Absent, inner, p, gone);
    SectionElse(t, f + [END], Present(gone), inner, p, onTrue);
    SectionEnds(f, Present(onTrue), inner, p, body);
    BlockCompiles(tok, s + ([ELSE] + (t + ([ELSE] + (f + [END])))), names, printer, opening, Present(onTrue), body);
  }

  /* ----- format blocks ----- */

  function FormatToken(name: string): Token {
    Directive(FormatWord, ["\"" + name + "\""])
  }

  predicate PrinterCalled(name: string, p: Printer) {
    (name == "raw" && p == Raw) || (name == "html" && p == Html) || (name == "xml" && p == Xml)
  }

  lemma FormatInterprets(name: string, p: Printer, names: Names, printer: Printer)
    requires PrinterCalled(name, p)
    ensures Interpret(FormatWord, FormatToken(name).args, names, printer) == Ok(Opens(FormatBlock(p)))
  {
    var arg := "\"" + name + "\"";
    assert Unquote(arg) == name;
    PrinterNamesDiffer();
  }

  lemma PrinterNamesDiffer()
    ensures "raw" != "html" && "raw" != "xml" && "html" != "xml"
  {
    assert "raw"[0] != "html"[0] && "raw"[0] != "xml"[0] && "html"[0] != "xml"[0];
  }

  /** A format block compiles to what it holds, under the printer that it names; a section before
      an 'else' in it is gone. */
  lemma FormatCompiles(name: string, p: Printer, t: seq<Token>, names: Names, printer: Printer, program: seq<Step>)
    requires PrinterCalled(name, p) && Compiles(t, names, p, program)
    ensures Compiles([FormatToken(name)] + (t + [END]), names, printer, program)
  {
    FormatInterprets(name, p, names, printer);
    SimpleBlock(FormatToken(name), t, names, printer, FormatBlock(p), program);
  }

  lemma FormatElse(name: string, p: Printer, s: seq<Token>, t: seq<Token>, names: Names, printer: Printer,
                   gone: seq<Step>, program: seq<Step>)
    requires PrinterCalled(name, p) && Compiles(s, names, p, gone) && Compiles(t, names, p, program)
    ensures Compiles([FormatToken(name)] + (s + ([ELSE] + (t + [END]))), names, printer, program)
  {
    FormatInterprets(name, p, names, printer);
    ElseBlock(FormatToken(name), s, t, names, printer, FormatBlock(p), gone, program);
  }
}
