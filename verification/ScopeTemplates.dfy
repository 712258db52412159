// Scopes with `{argument}` fields, filled in from the arguments of a tool call.
module ScopeTemplates {
  import opened Wrappers
  import opened Text
  import opened Json
  import opened Models

  predicate IsNameStart(c: char) {
    'A' <= c <= 'Z' || 'a' <= c <= 'z' || c == '_'
  }

  predicate IsNameChar(c: char) {
    IsNameStart(c) || '0' <= c <= '9'
  }

  function NameLength(s: string): (n: nat)
    ensures n <= |s| && forall i :: 0 <= i < n ==> IsNameChar(s[i])
    ensures n < |s| ==> !IsNameChar(s[n])
  {
    if s == "" || !IsNameChar(s[0]) then 0 else 1 + NameLength(s[1..])
  }

  // The length of the field at the head of `s`, 0 when there is none.
  function FieldLength(s: string): (n: nat)
    ensures n <= |s|
    ensures n > 0 ==> n >= 3 && s[0] == '{' && IsName(s[1..n - 1]) && s[n - 1] == '}'
  {
    if |s| < 2 || s[0] != '{' || !IsNameStart(s[1]) then 0
    else
      var n := NameLength(s[1..]);
      if n + 1 < |s| && s[n + 1] == '}' then n + 2 else 0
  }

  predicate IsName(name: string) {
    name != "" && IsNameStart(name[0]) && forall i :: 0 <= i < |name| ==> IsNameChar(name[i])
  }

  datatype ScopeError = MissingArguments | NotScalar | UnsupportedSyntax

  // `_template_arg_names`.
  function ArgNames(template: string): set<string>
    decreases |template|
  {
    if template == "" then {}
    else
      var n := FieldLength(template);
      if n > 0 then {template[1..n - 1]} + ArgNames(template[n..]) else ArgNames(template[1..])
  }

  // `_render_scope_value`.
  function RenderValue(value: Json): Option<string> {
    match value
    case Str(text) => Some(text)
    case Num(number) => Some(number)
    case Bool(b) => Some(if b then "true" else "false")
    case _ => None
  }

  // One pass of the substitution, from left to right.
  function Substitute(template: string, arguments: map<string, Json>): Result<string, ScopeError>
    requires ArgNames(template) <= arguments.Keys
    decreases |template|
  {
    if template == "" then Ok("")
    else
      var n := FieldLength(template);
      if n > 0 then
        match RenderValue(arguments[template[1..n - 1]])
        case None => Err(NotScalar)
        case Some(text) =>
          match Substitute(template[n..], arguments)
          case Err(e) => Err(e)
          case Ok(rest) => Ok(text + rest)
      else
        match Substitute(template[1..], arguments)
        case Err(e) => Err(e)
        case Ok(rest) => Ok([template[0]] + rest)
  }

  predicate HasBrace(s: string) {
    '{' in s || '}' in s
  }

  // `materialize_scope`.
  function MaterializeScope(requirement: ScopeRequirement, arguments: map<string, Json>): Result<string, ScopeError> {
    if !(Elements(requirement.scopeArgs) + ArgNames(requirement.scopeTemplate) <= arguments.Keys)
      then Err(MissingArguments)
    else
      match Substitute(requirement.scopeTemplate, arguments)
      case Err(e) => Err(e)
      case Ok(scope) => if HasBrace(scope) then Err(UnsupportedSyntax) else Ok(scope)
  }

  // ---- What a template means ----

  datatype Piece = Literal(c: char) | Field(name: string)

  function PrintPiece(p: Piece): string {
    match p case Literal(c) => [c] case Field(name) => "{" + name + "}"
  }

  function PrintPieces(pieces: seq<Piece>): string {
    if pieces == [] then "" else PrintPiece(pieces[0]) + PrintPieces(pieces[1..])
  }

  function Pieces(template: string): seq<Piece>
    decreases |template|
  {
    if template == "" then []
    else
      var n := FieldLength(template);
      if n > 0 then [Field(template[1..n - 1])] + Pieces(template[n..])
        else [Literal(template[0])] + Pieces(template[1..])
  }

  predicate IsPlainPiece(p: Piece) {
    match p case Literal(c) => c != '{' && c != '}' case Field(name) => IsName(name)
  }

  predicate IsPlain(pieces: seq<Piece>) {
    forall p <- pieces :: IsPlainPiece(p)
  }

  lemma FieldPrintsBack(template: string, n: nat)
    requires n == FieldLength(template) && n > 0
    ensures PrintPiece(Field(template[1..n - 1])) == template[..n]
  {
  }

  lemma PrintedBefore(p: Piece, rest: seq<Piece>)
    ensures PrintPieces([p] + rest) == PrintPiece(p) + PrintPieces(rest)
  {
    hide PrintPiece;
    assert ([p] + rest)[1..] == rest;
  }

  lemma NothingPrints()
    ensures PrintPieces([]) == ""
  {
  }

  lemma {:induction false} PiecesPrintBack(template: string)
    ensures PrintPieces(Pieces(template)) == template
    decreases |template|
  {
    hide FieldLength, PrintPieces;
    if template == "" {
      NothingPrints();
    } else {
      var n := FieldLength(template);
      if n > 0 {
        hide PrintPiece;
        PiecesPrintBack(template[n..]);
        PrintedBefore(Field(template[1..n - 1]), Pieces(template[n..]));
        FieldPrintsBack(template, n);
        assert template == template[..n] + template[n..];
      } else {
        PiecesPrintBack(template[1..]);
        PrintedBefore(Literal(template[0]), Pieces(template[1..]));
        assert template == [template[0]] + template[1..];
      }
    }
  }

  lemma {:induction false} NameEndsAtBrace(name: string, rest: string)
    requires forall i :: 0 <= i < |name| ==> IsNameChar(name[i])
    ensures NameLength(name + "}" + rest) == |name|
  {
    if name == "" {
      assert name + "}" + rest == "}" + rest;
    } else {
      assert (name + "}" + rest)[1..] == name[1..] + "}" + rest;
      NameEndsAtBrace(name[1..], rest);
    }
  }

  lemma FieldHeads(name: string, rest: string)
    requires IsName(name)
    ensures FieldLength("{" + name + "}" + rest) == |name| + 2
  {
    var template := "{" + name + "}" + rest;
    assert template[1..] == name + "}" + rest && template[1] == name[0] && template[|name| + 1] == '}';
    NameEndsAtBrace(name, rest);
  }

  lemma ReadPlainPiece(p: Piece, rest: string)
    requires IsPlainPiece(p)
    ensures Pieces(PrintPiece(p) + rest) == [p] + Pieces(rest)
  {
    var template := PrintPiece(p) + rest;
    match p
    case Literal(c) =>
      assert template[1..] == rest;
    case Field(name) =>
      hide FieldLength;
      FieldHeads(name, rest);
      assert template[1..|name| + 1] == name && template[|name| + 2..] == rest;
  }

  // A template written without other braces is read as it was meant.
  lemma {:induction false} PlainPiecesReadBack(pieces: seq<Piece>)
    requires IsPlain(pieces)
    ensures Pieces(PrintPieces(pieces)) == pieces
  {
    if pieces != [] {
      assert pieces[0] in pieces;
      PlainPiecesReadBack(pieces[1..]);
      ReadPlainPiece(pieces[0], PrintPieces(pieces[1..]));
      assert pieces == [pieces[0]] + pieces[1..];
    }
  }

  function FieldNames(pieces: seq<Piece>): set<string> {
    set p | p in pieces && p.Field? :: p.name
  }

  predicate IsScalar(value: Json) {
    value.Str? || value.Num? || value.Bool?
  }

  // How Python writes a scalar, in the words of JSON for booleans.
  function ScalarText(value: Json): string
    requires IsScalar(value)
  {
    match value
    case Str(text) => text
    case Num(number) => number
    case Bool(true) => "true"
    case Bool(false) => "false"
  }

  // What a piece stands for.
  function Fill(p: Piece, arguments: map<string, Json>): string
    requires p.Field? ==> p.name in arguments && IsScalar(arguments[p.name])
  {
    match p case Literal(c) => [c] case Field(name) => ScalarText(arguments[name])
  }

  predicate CanFill(pieces: seq<Piece>, arguments: map<string, Json>) {
    forall p <- pieces :: p.Field? ==> p.name in arguments && IsScalar(arguments[p.name])
  }

  function FillAll(pieces: seq<Piece>, arguments: map<string, Json>): string
    requires CanFill(pieces, arguments)
  {
    if pieces == [] then ""
    else
      assert pieces[0] in pieces;
      Fill(pieces[0], arguments) + FillAll(pieces[1..], arguments)
  }

  lemma {:induction false} ArgNamesAreFieldNames(template: string)
    ensures ArgNames(template) == FieldNames(Pieces(template))
    decreases |template|
  {
    if template != "" {
      var n := FieldLength(template);
      var pieces := Pieces(template);
      ArgNamesAreFieldNames(if n > 0 then template[n..] else template[1..]);
      assert pieces == [pieces[0]] + pieces[1..];
      assert FieldNames(pieces) == FieldNames([pieces[0]]) + FieldNames(pieces[1..]);
    }
  }

  lemma {:induction false} SubstituteFillsPieces(template: string, arguments: map<string, Json>)
    requires ArgNames(template) <= arguments.Keys
    ensures Substitute(template, arguments)
         == if CanFill(Pieces(template), arguments) then Ok(FillAll(Pieces(template), arguments)) else Err(NotScalar)
    decreases |template|
  {
    hide HasBrace, FieldLength, IsPlainPiece;
    if template != "" {
      var n := FieldLength(template);
      var pieces, rest := Pieces(template), if n > 0 then template[n..] else template[1..];
      SubstituteFillsPieces(rest, arguments);
      assert pieces == [pieces[0]] + Pieces(rest);
      assert CanFill(pieces, arguments) <==> CanFill([pieces[0]], arguments) && CanFill(Pieces(rest), arguments);
      assert [pieces[0]][0] in [pieces[0]];
    }
  }

  lemma {:induction false} FilledBraces(pieces: seq<Piece>, arguments: map<string, Json>)
    requires CanFill(pieces, arguments)
    ensures HasBrace(FillAll(pieces, arguments)) <==> exists p <- pieces :: HasBrace(Fill(p, arguments))
  {
    if pieces != [] {
      assert pieces == [pieces[0]] + pieces[1..];
      FilledBraces(pieces[1..], arguments);
      assert HasBrace(FillAll(pieces, arguments))
        <==> HasBrace(Fill(pieces[0], arguments)) || HasBrace(FillAll(pieces[1..], arguments));
    }
  }

  // A scope materialises exactly when every declared and every template argument is there, the
  // template arguments are scalars, and neither the literal text nor a filled-in value holds a
  // brace.  It is then the literals and values in one pass: nothing in a value is expanded again.
  lemma MaterializeIsExact(requirement: ScopeRequirement, arguments: map<string, Json>)
    ensures var pieces := Pieces(requirement.scopeTemplate);
      var r := MaterializeScope(requirement, arguments);
      && (r == Err(MissingArguments) <==> !(Elements(requirement.scopeArgs) + FieldNames(pieces) <= arguments.Keys))
      && (r == Err(NotScalar) <==>
           Elements(requirement.scopeArgs) + FieldNames(pieces) <= arguments.Keys && !CanFill(pieces, arguments))
      && (r.Ok? <==> Elements(requirement.scopeArgs) <= arguments.Keys && CanFill(pieces, arguments) &&
                     forall p <- pieces :: !HasBrace(Fill(p, arguments)))
      && (r.Ok? ==> r.value == FillAll(pieces, arguments))
  {
    var pieces := Pieces(requirement.scopeTemplate);
    ArgNamesAreFieldNames(requirement.scopeTemplate);
    if ArgNames(requirement.scopeTemplate) <= arguments.Keys {
      SubstituteFillsPieces(requirement.scopeTemplate, arguments);
    }
    if CanFill(pieces, arguments) {
      FilledBraces(pieces, arguments);
      assert FieldNames(pieces) <= arguments.Keys;
    }
  }

  // `materialize_scopes`: the sorted set of the scopes; the first failure is raised.
  function MaterializeSet(requirements: seq<ScopeRequirement>, arguments: map<string, Json>)
    : Result<set<string>, ScopeError>
  {
    if requirements == [] then Ok({})
    else
      match MaterializeScope(requirements[0], arguments)
      case Err(e) => Err(e)
      case Ok(scope) =>
        match MaterializeSet(requirements[1..], arguments)
        case Err(e) => Err(e)
        case Ok(scopes) => Ok({scope} + scopes)
  }

  function MaterializeScopes(requirements: seq<ScopeRequirement>, arguments: map<string, Json>)
    : Result<seq<string>, ScopeError>
  {
    match MaterializeSet(requirements, arguments)
    case Err(e) => Err(e)
    case Ok(scopes) => Ok(Sorted(scopes))
  }

  lemma {:induction false} MaterializeSetIsExact(requirements: seq<ScopeRequirement>, arguments: map<string, Json>)
    ensures MaterializeSet(requirements, arguments).Ok? <==>
      forall i :: 0 <= i < |requirements| ==> MaterializeScope(requirements[i], arguments).Ok?
    ensures MaterializeSet(requirements, arguments).Ok? ==>
      forall scope :: scope in MaterializeSet(requirements, arguments).value <==>
        exists i :: 0 <= i < |requirements| && MaterializeScope(requirements[i], arguments) == Ok(scope)
  {
    hide MaterializeScope;
    if requirements != [] {
      var tail := requirements[1..];
      MaterializeSetIsExact(tail, arguments);
      assert forall i :: 0 < i < |requirements| ==> tail[i - 1] == requirements[i];
      if MaterializeSet(requirements, arguments).Ok? {
        forall scope
          ensures scope in MaterializeSet(requirements, arguments).value <==>
            exists i :: 0 <= i < |requirements| && MaterializeScope(requirements[i], arguments) == Ok(scope)
        {
          if k: nat :| k < |tail| && MaterializeScope(tail[k], arguments) == Ok(scope) {
            assert requirements[k + 1] == tail[k];
          }
        }
      }
    }
  }

  // The scopes of a list materialise exactly when each does; they are then the set of them, sorted.
  lemma MaterializedScopesAreSorted(requirements: seq<ScopeRequirement>, arguments: map<string, Json>)
    ensures MaterializeScopes(requirements, arguments).Ok? <==>
      forall i :: 0 <= i < |requirements| ==> MaterializeScope(requirements[i], arguments).Ok?
    ensures MaterializeScopes(requirements, arguments).Ok? ==>
      var scopes := MaterializeScopes(requirements, arguments).value;
      Increasing(scopes) && forall scope :: scope in scopes <==>
        exists i :: 0 <= i < |requirements| && MaterializeScope(requirements[i], arguments) == Ok(scope)
  {
    MaterializeSetIsExact(requirements, arguments);
    hide MaterializeScope, MaterializeSet;
  }

  // A template of fields only, whose arguments are all the empty string.
  predicate RendersEmpty(template: string, arguments: map<string, Json>) {
    forall p <- Pieces(template) :: p.Field? && p.name in arguments && arguments[p.name] == Str("")
  }

  lemma {:induction false} FillsWithNothing(pieces: seq<Piece>, arguments: map<string, Json>)
    requires CanFill(pieces, arguments)
    ensures FillAll(pieces, arguments) == "" <==>
      forall p <- pieces :: p.Field? && p.name in arguments && arguments[p.name] == Str("")
  {
    if pieces != [] {
      assert pieces == [pieces[0]] + pieces[1..] && pieces[0] in pieces;
      FillsWithNothing(pieces[1..], arguments);
    }
  }

  // A scope that materialises is empty exactly when its template is blank.
  lemma MaterializesToNothing(requirement: ScopeRequirement, arguments: map<string, Json>)
    requires MaterializeScope(requirement, arguments).Ok?
    ensures MaterializeScope(requirement, arguments) == Ok("") <==> RendersEmpty(requirement.scopeTemplate, arguments)
  {
    MaterializeIsExact(requirement, arguments);
    hide MaterializeScope, Pieces;
    FillsWithNothing(Pieces(requirement.scopeTemplate), arguments);
  }

  // Text at the head of a template keeps it from being blank.
  lemma TextRendersSomething(template: string, arguments: map<string, Json>)
    requires template != "" && template[0] != '{'
    ensures !RendersEmpty(template, arguments)
  {
    assert Pieces(template)[0] == Literal(template[0]);
    assert Literal(template[0]) in Pieces(template);
  }

  lemma OneFieldTemplate(name: string)
    requires IsName(name)
    ensures Pieces("{" + name + "}") == [Field(name)]
  {
    var pieces := [Field(name)];
    hide Pieces, IsName;
    PlainPiecesReadBack(pieces);
    assert PrintPieces(pieces[1..]) == "";
    assert PrintPieces(pieces) == "{" + name + "}" + "" == "{" + name + "}";
  }

  // A template of one field whose argument is the empty string.
  lemma OneFieldRendersEmpty(name: string)
    requires IsName(name)
    ensures RendersEmpty("{" + name + "}", map[name := Str("")])
    ensures MaterializeScope(ScopeRequirement("{" + name + "}", []), map[name := Str("")]).Ok?
  {
    var (template, arguments) := ("{" + name + "}", map[name := Str("")]);
    OneFieldTemplate(name);
    hide Pieces, IsName;
    MaterializeIsExact(ScopeRequirement(template, []), arguments);
    hide MaterializeScope;
    assert forall p <- [Field(name)] :: p == Field(name);
    assert Fill(Field(name), arguments) == "";
  }

  // A template of one ordinary character is the scope it is.
  lemma OneLetterMaterializes(c: char, arguments: map<string, Json>)
    requires c != '{' && c != '}'
    ensures MaterializeScope(ScopeRequirement([c], []), arguments) == Ok([c])
  {
    var pieces := [Literal(c)];
    assert PrintPieces(pieces[1..]) == "" && PrintPieces(pieces) == [c] + "" == [c];
    hide Pieces;
    PlainPiecesReadBack(pieces);
    MaterializeIsExact(ScopeRequirement([c], []), arguments);
    hide MaterializeScope;
    assert forall p <- pieces :: p == Literal(c);
    assert FillAll(pieces[1..], arguments) == "" && FillAll(pieces, arguments) == [c] + "";
  }
}
