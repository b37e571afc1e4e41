/** The vocabulary of the EZT template compiler: the tokens that the tokeniser
    hands to the parser, the value references, and the nested program. */
module EztSyntax {
  import opened Wrappers

  // The command words; a directive that starts with anything else is an implied print.
  datatype Word = ElseWord | EndWord | IfIndexWord | ForWord | IsWord | DefineWord | FormatWord
                | IncludeWord | IfAnyWord | PrintWord

  // One piece of the split template. The arguments of a print directive are all its
  // items, those of any other directive the items after the command word.
  datatype Token =
    | TextToken(text: string)
    | BracketToken
    | Directive(word: Word, args: seq<string>)

  function WordOf(item: string): Word {
    if item == "else" then ElseWord
    else if item == "end" then EndWord
    else if item == "if-index" then IfIndexWord
    else if item == "for" then ForWord
    else if item == "is" then IsWord
    else if item == "define" then DefineWord
    else if item == "format" then FormatWord
    else if item == "include" then IncludeWord
    else if item == "if-any" then IfAnyWord
    else PrintWord
  }

  // The directive made of the given items, of which there is at least one.
  function Lex(items: seq<string>): Token
    requires items != []
  {
    var word := WordOf(items[0]);
    Directive(word, if word == PrintWord then items else items[1..])
  }

  datatype ParseError =
    | IndexError
    | ArgCount
    | UnmatchedEnd
    | UnclosedBlocks
    | BadFormatConstant
    | UnknownFormatConstant
    | BaseUnavailable

  // The printer that a print step is bound to when it is compiled.
  datatype Printer = Raw | Html | Xml

  // A prepared value reference: a string constant, or a dotted name with the
  // object it starts from and the attributes still to walk.
  datatype ValRef =
    | Const(text: string)
    | Ref(refname: string, start: string, rest: seq<string>)

  datatype Command =
    | IfAny(refs: seq<ValRef>)
    | IfIndex(ref: ValRef, value: Option<string>)
    | Is(left: ValRef, right: ValRef)
    | For(list: ValRef)
    | Define(name: Option<string>)

  // The section that an 'else' has ended, if the block has one.
  datatype Section = Absent | Present(steps: seq<Step>)

  datatype Step =
    | Text(text: string)
    | Print(printer: Printer, refs: seq<ValRef>)
    | Include(file: ValRef)
    | Block(cmd: Command, onTrue: Section, body: seq<Step>)

  // The names of the enclosing 'for' blocks; a 'for' over a constant has none.
  type Names = seq<Option<string>>

  /* ----- dotted names ----- */

  function Split(s: string): (parts: seq<string>)
    ensures |parts| >= 1
    ensures Join(parts) == s
    ensures forall p :: p in parts ==> '.' !in p
  {
    if s == "" then [""]
    else if s[0] == '.' then [""] + Split(s[1..])
    else
      var p := Split(s[1..]);
      [[s[0]] + p[0]] + p[1..]
  }

  function Join(parts: seq<string>): string {
    if |parts| == 0 then ""
    else if |parts| == 1 then parts[0]
    else parts[0] + "." + Join(parts[1..])
  }

  // The length of the longest prefix, of at most i parts, that names an enclosing
  // 'for'; 0 when there is none.
  function ForPrefix(parts: seq<string>, names: Names, i: nat): (k: nat)
    requires i <= |parts|
    ensures k <= i
    ensures k > 0 ==> Some(Join(parts[..k])) in names
    ensures forall j :: k < j <= i ==> Some(Join(parts[..j])) !in names
  {
    if i == 0 then 0
    else if Some(Join(parts[..i])) in names then i
    else ForPrefix(parts, names, i - 1)
  }

  function Unquote(s: string): string {
    if |s| < 2 then "" else s[1..|s| - 1]
  }

  // 'argN' with a negative N passes the bound check against the empty list of
  // include arguments, and the list access then fails.
  predicate NegativeArg(start: string) {
    && |start| >= 5
    && start[..3] == "arg"
    && start[3] == '-'
    && (forall i :: 4 <= i < |start| ==> '0' <= start[i] <= '9')
    && (exists i :: 4 <= i < |start| && start[i] != '0')
  }

  function PrepareRef(refname: string, names: Names): Result<ValRef, ParseError> {
    if refname == "" then Err(IndexError)
    else if refname[0] == '"' then Ok(Const(Unquote(refname)))
    else
      var parts := Split(refname);
      if NegativeArg(parts[0]) then Err(IndexError)
      else
        var i := ForPrefix(parts, names, |parts|);
        if i > 0 then Ok(Ref(refname, Join(parts[..i]), parts[i..]))
        else Ok(Ref(refname, parts[0], parts[1..]))
  }

  function PrepareAll(args: seq<string>, names: Names): (r: Result<seq<ValRef>, ParseError>)
    ensures r.Ok? ==> |r.value| == |args|
    ensures r.Ok? ==> forall i :: 0 <= i < |args| ==> PrepareRef(args[i], names) == Ok(r.value[i])
  {
    if args == [] then Ok([])
    else
      var first :- PrepareRef(args[0], names);
      var others :- PrepareAll(args[1..], names);
      Ok([first] + others)
  }

  // The name that a 'for' block adds to the enclosing names.
  function RefName(ref: ValRef): Option<string> {
    match ref
    case Const(_) => None
    case Ref(refname, _, _) => Some(refname)
  }
}
