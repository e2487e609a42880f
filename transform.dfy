/**
  The compile-time half of mockingbird: a Babel plugin that, in a module that
  opts in, turns top-level `const` declarations into `let` and replaces the
  opt-in export `export … mockingbird` with the control object.

  The module is abstracted to its top-level statements; the visitor's
  decisions are the pure functions below (`Run`), and class `PluginState`
  performs them as the plugin does, updating its fields and the statements
  in place.
*/
module Transform {
  import opened Names

  datatype Option<T> = None | Some(value: T)

  // ------------------------------------------------------------ the module

  datatype Kind = Const | Let | Var

  /** The target of a declarator: a plain identifier, or a destructuring pattern. */
  datatype Declarator = Identifier(name: Name) | Pattern

  /** A variable declaration, as far as the plugin looks at it: its kind and
      its first declarator. */
  datatype Declaration = Declaration(kind: Kind, first: Declarator)

  /** Where a variable declaration sits. */
  datatype Parent = ProgramBody | NamedExport | Nested

  /** A top-level statement of the module. `Block` is any statement with
      variable declarations nested inside it (a block, a loop, a function
      body); `ExportOther` is a named export of anything but a variable
      declaration; `ControlObject` is what the plugin injects. */
  datatype Statement =
    | Decl(decl: Declaration)
    | Export(decl: Declaration)
    | ExportOther
    | Block(decls: seq<Declaration>)
    | ControlObject(bindings: seq<Name>, mutables: seq<Name>)
    | Other

  /** An entry of the module's top-level scope table. `OtherBinding` covers
      the kinds that are neither `var`, `let` nor `const` (imports, hoisted
      functions, parameters). */
  datatype BindingKind = VarBinding | LetBinding | ConstBinding | OtherBinding
  datatype Binding = Binding(name: Name, kind: BindingKind)

  // ----------------------------------------------------- the module's text

  predicate StartsWith(s: string, p: string) {
    |p| <= |s| && s[..|p|] == p
  }

  /** `(const|let|var) mockingbird` at the start of `u`. */
  predicate KindThenMarker(u: string) {
    || (StartsWith(u, "const ") && StartsWith(u[6..], Marker))
    || (StartsWith(u, "let ") && StartsWith(u[4..], Marker))
    || (StartsWith(u, "var ") && StartsWith(u[4..], Marker))
  }

  /** The opt-in pattern `export( declare)? (const|let|var) mockingbird`
      matches at offset `i`. Its optional tail `(: Mockingbird)?;?` can
      always match empty, so it never decides whether the text matches. */
  predicate OptInAt(s: string, i: int)
    requires 0 <= i <= |s|
  {
    var t := s[i..];
    || (StartsWith(t, "export declare ") && KindThenMarker(t[15..]))
    || (StartsWith(t, "export ") && KindThenMarker(t[7..]))
  }

  /** The module opts in: the pattern matches anywhere in its text. */
  predicate OptIn(s: string) {
    exists i :: 0 <= i <= |s| && OptInAt(s, i)
  }

  /** ECMAScript's `\s`: white space and line terminators. */
  predicate IsWhitespace(c: char) {
    || c == ' ' || c == '\t' || c == '\n' || c == '\r' || c == '\U{000B}' || c == '\U{000C}'
    || c == '\U{00A0}' || c == '\U{1680}' || ('\U{2000}' <= c <= '\U{200A}')
    || c == '\U{2028}' || c == '\U{2029}' || c == '\U{202F}' || c == '\U{205F}'
    || c == '\U{3000}' || c == '\U{FEFF}'
  }

  /** ECMAScript's `\w`, which decides where `\b` lies. */
  predicate IsWordChar(c: char) {
    ('a' <= c <= 'z') || ('A' <= c <= 'Z') || ('0' <= c <= '9') || c == '_'
  }

  const IgnoreToken: string := "mockingbird-ignore"

  /** `\smockingbird-ignore\b` matches at offset `i`. */
  predicate IgnoreTokenAt(s: string, i: int)
    requires 0 <= i
  {
    var end := i + 1 + |IgnoreToken|;
    && end <= |s|
    && IsWhitespace(s[i])
    && s[i + 1..end] == IgnoreToken
    && (end == |s| || !IsWordChar(s[end]))
  }

  predicate HasIgnoreToken(s: string) {
    exists i :: 0 <= i < |s| && IgnoreTokenAt(s, i)
  }

  /** A text without an `x` does not opt in. */
  lemma NoXNoOptIn(s: string)
    requires 'x' !in s
    ensures !OptIn(s)
  {
    forall i | 0 <= i <= |s|
      ensures !OptInAt(s, i)
    {
      var t := s[i..];
      if |t| >= 2 {
        assert t[1] == s[i + 1];
      }
    }
  }

  /** A text without a `-` carries no ignore comment. */
  lemma NoDashNoIgnoreToken(s: string)
    requires '-' !in s
    ensures !HasIgnoreToken(s)
  {
    forall i | 0 <= i < |s|
      ensures !IgnoreTokenAt(s, i)
    {
      if i + 1 + |IgnoreToken| <= |s| {
        assert s[i + 1..i + 1 + |IgnoreToken|][11] == s[i + 12];
      }
    }
  }

  // ------------------------------------------------------------- bindings

  /** The names of the scope table, in table order. */
  function NamesOf(scope: seq<Binding>): (r: seq<Name>)
    ensures |r| == |scope|
    ensures forall i :: 0 <= i < |scope| ==> r[i] == scope[i].name
    ensures forall b :: b in scope ==> b.name in r
  {
    if scope == [] then [] else [scope[0].name] + NamesOf(scope[1..])
  }

  /** A scope table has one entry per name. */
  predicate DistinctNames(scope: seq<Binding>) {
    NoDuplicates(NamesOf(scope))
  }

  predicate IsMutableKind(k: BindingKind) {
    k == VarBinding || k == LetBinding
  }

  /** `state.bindings`: every name of the scope except `mockingbird`, in
      table order. */
  function BindingNames(scope: seq<Binding>): (r: seq<Name>)
    ensures |r| <= |scope| && Marker !in r
  {
    if scope == [] then []
    else (if scope[0].name != Marker then [scope[0].name] else []) + BindingNames(scope[1..])
  }

  /** `state.mutables`: the names of the `var` and `let` bindings except
      `mockingbird`, in table order. */
  function MutableNames(scope: seq<Binding>): (r: seq<Name>)
    ensures |r| <= |scope| && Marker !in r
  {
    if scope == [] then []
    else
      var b := scope[0];
      (if b.name != Marker && IsMutableKind(b.kind) then [b.name] else []) + MutableNames(scope[1..])
  }

  /** Prepending a name not in a list without duplicates keeps it without. */
  lemma ConsNoDuplicates(x: Name, rest: seq<Name>)
    requires x !in rest && NoDuplicates(rest)
    ensures NoDuplicates([x] + rest)
  {
    var r := [x] + rest;
    forall i, j | 0 <= i < j < |r|
      ensures r[i] != r[j]
    {
      assert r[j] == rest[j - 1];
      if i > 0 {
        assert r[i] == rest[i - 1];
      }
    }
  }

  /** The bindings are exactly the scope's names other than `mockingbird`. */
  lemma {:induction false} BindingNamesMembers(scope: seq<Binding>)
    ensures forall n :: n in BindingNames(scope) <==> n != Marker && n in NamesOf(scope)
  {
    if scope != [] {
      BindingNamesMembers(scope[1..]);
      assert NamesOf(scope) == [scope[0].name] + NamesOf(scope[1..]);
    }
  }

  /** Each binding is listed once when the scope has one entry per name. */
  lemma {:induction false} BindingNamesDistinct(scope: seq<Binding>)
    ensures DistinctNames(scope) ==> NoDuplicates(BindingNames(scope))
  {
    if scope != [] && DistinctNames(scope) {
      var rest := scope[1..];
      assert NamesOf(scope) == [scope[0].name] + NamesOf(rest);
      assert DistinctNames(rest) && scope[0].name !in NamesOf(rest);
      BindingNamesDistinct(rest);
      if scope[0].name != Marker {
        BindingNamesMembers(rest);
        ConsNoDuplicates(scope[0].name, BindingNames(rest));
      }
    }
  }

  /** The mutables are exactly the names other than `mockingbird` that the
      scope binds with `var` or `let`. */
  lemma {:induction false} MutableNamesMembers(scope: seq<Binding>)
    ensures forall n :: n in MutableNames(scope) <==>
      n != Marker && (Binding(n, VarBinding) in scope || Binding(n, LetBinding) in scope)
  {
    if scope != [] {
      MutableNamesMembers(scope[1..]);
      assert scope == [scope[0]] + scope[1..];
    }
  }

  /** Each mutable is listed once when the scope has one entry per name. */
  lemma {:induction false} MutableNamesDistinct(scope: seq<Binding>)
    ensures DistinctNames(scope) ==> NoDuplicates(MutableNames(scope))
  {
    if scope != [] && DistinctNames(scope) {
      var rest := scope[1..];
      var b := scope[0];
      assert NamesOf(scope) == [b.name] + NamesOf(rest);
      assert DistinctNames(rest) && b.name !in NamesOf(rest);
      MutableNamesDistinct(rest);
      if b.name != Marker && IsMutableKind(b.kind) {
        MutableNamesMembers(rest);
        ConsNoDuplicates(b.name, MutableNames(rest));
      }
    }
  }

  /** The mutables are among the bindings: what the registry relies on. */
  lemma MutablesWithinBindings(scope: seq<Binding>)
    ensures forall m :: m in MutableNames(scope) ==> m in BindingNames(scope)
  {
    BindingNamesMembers(scope);
    MutableNamesMembers(scope);
  }

  // -------------------------------------------------------------- visitor

  /** The plugin's per-file state. */
  datatype Visitor = Visitor(ignore: bool, injected: bool, bindings: seq<Name>, mutables: seq<Name>)

  /** The state Babel hands to the first visit of a file: nothing set yet. */
  const Initial: Visitor := Visitor(false, false, [], [])

  /** `Program.enter`: decide whether to leave the file alone and take the
      two name lists from the scope table; `injected` is left as it is. */
  function Enter(v: Visitor, source: string, scope: seq<Binding>): (r: Visitor)
    ensures r.ignore <==> !OptIn(source) || HasIgnoreToken(source)
    ensures r.injected == v.injected
    ensures forall n :: n in r.mutables ==> n in r.bindings
    ensures Marker !in r.bindings && Marker !in r.mutables
    ensures DistinctNames(scope) ==> NoDuplicates(r.bindings) && NoDuplicates(r.mutables)
  {
    BindingNamesMembers(scope);
    BindingNamesDistinct(scope);
    MutableNamesMembers(scope);
    MutableNamesDistinct(scope);
    MutablesWithinBindings(scope);
    Visitor(!OptIn(source) || HasIgnoreToken(source), v.injected, BindingNames(scope), MutableNames(scope))
  }

  /** The `VariableDeclaration` visitor: a `const` whose first declarator is
      not `mockingbird` becomes `let` when it sits at the top level (directly
      in the program or in a named export). */
  function RewriteDeclaration(d: Declaration, parent: Parent, ignore: bool): (r: Declaration)
    ensures r != d <==> !ignore && d.kind == Const && d.first != Identifier(Marker) && parent != Nested
    ensures r != d ==> r == d.(kind := Let)
  {
    if ignore then d
    else if d.kind != Const then d
    else if d.first == Identifier(Marker) then d
    else
      match parent
      case ProgramBody => d.(kind := Let)
      case NamedExport => d.(kind := Let)
      case Nested => d
  }

  /** The `VariableDeclaration` visitor applied to each of `ds`. */
  function RewriteAll(ds: seq<Declaration>, parent: Parent, ignore: bool): (r: seq<Declaration>)
    ensures |r| == |ds|
    ensures forall i :: 0 <= i < |ds| ==> r[i] == RewriteDeclaration(ds[i], parent, ignore)
  {
    if ds == [] then [] else [RewriteDeclaration(ds[0], parent, ignore)] + RewriteAll(ds[1..], parent, ignore)
  }

  /** Nested declarations are never rewritten. */
  lemma NestedUntouched(ds: seq<Declaration>, ignore: bool)
    ensures RewriteAll(ds, Nested, ignore) == ds
  {
  }

  /** A named export whose declaration is a variable declaration with a first
      declarator named `mockingbird`. */
  predicate IsMarkerExport(st: Statement) {
    st.Export? && st.decl.first == Identifier(Marker)
  }

  /** `buildMockingbird`: a control object carrying the two name lists. */
  function BuildControlObject(bindings: seq<Name>, mutables: seq<Name>): (st: Statement)
    ensures st.ControlObject? && st.bindings == bindings && st.mutables == mutables
    ensures !IsMarkerExport(st)
  {
    ControlObject(bindings, mutables)
  }

  /** A statement after the declaration visitor alone has run over it. */
  function Rewritten(st: Statement, ignore: bool): (r: Statement)
    ensures ignore ==> r == st
    ensures r.ControlObject? <==> st.ControlObject?
    ensures st.Block? ==> r == st
  {
    match st
    case Decl(d) => Decl(RewriteDeclaration(d, ProgramBody, ignore))
    case Export(d) => Export(RewriteDeclaration(d, NamedExport, ignore))
    case Block(ds) => NestedUntouched(ds, ignore); Block(RewriteAll(ds, Nested, ignore))
    case _ => st
  }

  datatype Step = Step(out: Statement, visitor: Visitor)

  /** One top-level statement: the `ExportNamedDeclaration` visitor replaces
      the first marker export, the `VariableDeclaration` visitor then rewrites
      what is left. The injected object is visited again and left alone. */
  function VisitStatement(v: Visitor, st: Statement): (r: Step)
    ensures r.visitor == v.(injected := r.visitor.injected)
    ensures r.visitor.injected <==> v.injected || (!v.ignore && IsMarkerExport(st))
    ensures r.out != Rewritten(st, v.ignore) ==> r.out == BuildControlObject(v.bindings, v.mutables)
  {
    if !v.ignore && !v.injected && IsMarkerExport(st) then
      Step(BuildControlObject(v.bindings, v.mutables), v.(injected := true))
    else
      Step(Rewritten(st, v.ignore), v)
  }

  datatype Pass = Pass(out: seq<Statement>, visitor: Visitor)

  /** The traversal over the program body, statement by statement. */
  function Run(v: Visitor, prog: seq<Statement>): (r: Pass)
    ensures |r.out| == |prog|
    ensures r.visitor == v.(injected := r.visitor.injected)
    ensures v.injected ==> r.visitor.injected
    decreases |prog|
  {
    if prog == [] then Pass([], v)
    else
      var step := VisitStatement(v, prog[0]);
      var rest := Run(step.visitor, prog[1..]);
      Pass([step.out] + rest.out, rest.visitor)
  }

  /** The whole plugin on one file. */
  function Transformed(source: string, scope: seq<Binding>, prog: seq<Statement>): (r: seq<Statement>)
    ensures |r| == |prog|
  {
    Run(Enter(Initial, source, scope), prog).out
  }

  /** The index of the first marker export, if there is one. */
  function FirstMarker(prog: seq<Statement>): (r: Option<nat>)
    ensures r.Some? ==> r.value < |prog| && IsMarkerExport(prog[r.value])
    ensures r.Some? ==> forall j :: 0 <= j < r.value ==> !IsMarkerExport(prog[j])
    ensures r.None? ==> forall j :: 0 <= j < |prog| ==> !IsMarkerExport(prog[j])
  {
    if prog == [] then None
    else if IsMarkerExport(prog[0]) then Some(0)
    else match FirstMarker(prog[1..])
      case None => None
      case Some(i) => Some(i + 1)
  }

  function CountControlObjects(prog: seq<Statement>): nat {
    if prog == [] then 0
    else (if prog[0].ControlObject? then 1 else 0) + CountControlObjects(prog[1..])
  }

  // ------------------------------------------------------- the plugin object

  /** The per-file state Babel passes to each visitor, updated in place, and
      the visitors as its methods. The program body is an array of
      statements; a visitor that rewrites or replaces a node writes the new
      statement into its slot. */
  class PluginState {
    var ignore: bool
    var injected: bool
    var bindings: seq<Name>
    var mutables: seq<Name>

    function Model(): Visitor
      reads this
    {
      Visitor(ignore, injected, bindings, mutables)
    }

    /** The fresh state of a file: no field set yet. */
    constructor ()
      ensures Model() == Initial
    {
      ignore := false;
      injected := false;
      bindings := [];
      mutables := [];
    }

    /** `Program.enter` */
    method ProgramEnter(source: string, scope: seq<Binding>)
      modifies this
      ensures Model() == Enter(old(Model()), source, scope)
    {
      var optIn := OptIn(source);
      var ignoreComment := HasIgnoreToken(source);
      ignore := !optIn || ignoreComment;
      bindings := BindingNames(scope);
      mutables := MutableNames(scope);
    }

    /** The `VariableDeclaration` visitor, returning the node as it leaves it. */
    method VisitVariableDeclaration(d: Declaration, parent: Parent) returns (r: Declaration)
      ensures r == RewriteDeclaration(d, parent, ignore)
    {
      r := d;
      if ignore {
        return;
      }
      if d.kind != Const {
        return;
      }
      if d.first.Identifier? && d.first.name == Marker {
        return;
      }
      var isTopLevel := parent == ProgramBody || parent == NamedExport;
      if isTopLevel {
        r := d.(kind := Let);
      }
    }

    /** The `VariableDeclaration` visitor on each declaration nested in a statement. */
    method VisitNested(ds: seq<Declaration>) returns (r: seq<Declaration>)
      ensures r == RewriteAll(ds, Nested, ignore)
    {
      r := [];
      var k := 0;
      while k < |ds|
        invariant 0 <= k <= |ds|
        invariant |r| == k
        invariant forall j :: 0 <= j < k ==> r[j] == RewriteDeclaration(ds[j], Nested, ignore)
      {
        var d := VisitVariableDeclaration(ds[k], Nested);
        r := r + [d];
        k := k + 1;
      }
    }

    /** The `ExportNamedDeclaration` visitor: the replacement node, if it
        replaces `st`. */
    method VisitExportNamedDeclaration(st: Statement) returns (r: Option<Statement>)
      modifies this
      ensures r.Some? <==> !old(ignore) && !old(injected) && IsMarkerExport(st)
      ensures r.Some? ==> r.value == BuildControlObject(bindings, mutables)
      ensures Model() == old(Model()).(injected := old(injected) || r.Some?)
    {
      if ignore {
        return None;
      }
      if injected {
        return None;
      }
      if !st.Export? {
        return None;
      }
      var declarator := st.decl.first;
      if !declarator.Identifier? {
        return None;
      }
      if declarator.name != Marker {
        return None;
      }
      r := Some(BuildControlObject(bindings, mutables));
      injected := true;
    }

    /** The visitors on the statement in slot `i`, in Babel's order: the
        export visitor first, then the declarations inside what is left. */
    method VisitAt(prog: array<Statement>, i: nat)
      requires i < prog.Length
      modifies this, prog
      ensures var step := VisitStatement(old(Model()), old(prog[i]));
        && prog[..] == old(prog[..])[i := step.out]
        && Model() == step.visitor
    {
      var st := prog[i];
      var replacement := None;
      if st.Export? || st.ExportOther? {
        replacement := VisitExportNamedDeclaration(st);
      }
      if replacement.Some? {
        prog[i] := replacement.value;
        return;
      }
      match st
      case Decl(d) =>
        var d' := VisitVariableDeclaration(d, ProgramBody);
        prog[i] := Decl(d');
      case Export(d) =>
        var d' := VisitVariableDeclaration(d, NamedExport);
        prog[i] := Export(d');
      case Block(ds) =>
        var ds' := VisitNested(ds);
        prog[i] := Block(ds');
      case _ =>
    }

    /** The traversal of the program body, after `Program.enter`. */
    method Traverse(prog: array<Statement>)
      modifies this, prog
      ensures var pass := Run(old(Model()), old(prog[..]));
        prog[..] == pass.out && Model() == pass.visitor
    {
      ghost var orig := prog[..];
      ghost var target := Run(Model(), orig);
      var i := 0;
      while i < prog.Length
        invariant 0 <= i <= prog.Length
        invariant prog[i..] == orig[i..]
        invariant prog[..i] + Run(Model(), orig[i..]).out == target.out
        invariant Run(Model(), orig[i..]).visitor == target.visitor
      {
        ghost var before := prog[..];
        TraverseStep(prog[..i], Model(), orig[i..], target);
        assert orig[i..][0] == prog[i];
        assert orig[i..][1..] == orig[i + 1..];
        VisitAt(prog, i);
        assert prog[..i + 1] == before[..i] + [prog[i]];
        assert prog[i + 1..] == before[i + 1..];
        i := i + 1;
      }
      assert prog[..] == prog[..prog.Length];
    }
  }

  /** One iteration of the traversal: the statement visited joins the part
      already done, and the rest is still to be traversed. */
  lemma TraverseStep(done: seq<Statement>, v: Visitor, rest: seq<Statement>, target: Pass)
    requires rest != []
    requires done + Run(v, rest).out == target.out && Run(v, rest).visitor == target.visitor
    ensures var step := VisitStatement(v, rest[0]);
      && (done + [step.out]) + Run(step.visitor, rest[1..]).out == target.out
      && Run(step.visitor, rest[1..]).visitor == target.visitor
  {
    RunStep(v, rest);
  }

  /** `Run` on a non-empty program, one step unfolded. */
  lemma RunStep(v: Visitor, prog: seq<Statement>)
    requires prog != []
    ensures var step := VisitStatement(v, prog[0]);
      && Run(v, prog).out == [step.out] + Run(step.visitor, prog[1..]).out
      && Run(v, prog).visitor == Run(step.visitor, prog[1..]).visitor
  {
  }

  /** The plugin on one file: `Program.enter`, then the traversal. */
  method TransformModule(source: string, scope: seq<Binding>, prog: array<Statement>) returns (state: PluginState)
    modifies prog
    ensures fresh(state)
    ensures prog[..] == Transformed(source, scope, old(prog[..]))
  {
    state := new PluginState();
    state.ProgramEnter(source, scope);
    state.Traverse(prog);
  }

  // ---------------------------------------------------------- properties

  /** With `ignore` set, the traversal changes nothing and injects nothing. */
  lemma {:induction false} RunIgnored(v: Visitor, prog: seq<Statement>)
    requires v.ignore
    ensures Run(v, prog) == Pass(prog, v)
    decreases |prog|
  {
    if prog != [] {
      RunIgnored(v, prog[1..]);
    }
  }

  /** A file that does not opt in, or carries the ignore comment, comes out
      exactly as it went in. */
  lemma IgnoredFileUnchanged(source: string, scope: seq<Binding>, prog: seq<Statement>)
    requires !OptIn(source) || HasIgnoreToken(source)
    ensures Transformed(source, scope, prog) == prog
  {
    RunIgnored(Enter(Initial, source, scope), prog);
  }

  /** `injected` ends up set exactly when an object was or had been
      injected, that is when the program has a marker export. */
  lemma {:induction false} RunSetsInjected(v: Visitor, prog: seq<Statement>)
    requires !v.ignore
    ensures Run(v, prog).visitor.injected <==> v.injected || FirstMarker(prog).Some?
    decreases |prog|
  {
    if prog != [] {
      RunSetsInjected(VisitStatement(v, prog[0]).visitor, prog[1..]);
    }
  }

  /** What each statement becomes when the file is transformed: the first
      marker export (unless an object was injected before) turns into the
      control object, every other statement is only rewritten. */
  lemma {:induction false} RunPointwise(v: Visitor, prog: seq<Statement>)
    requires !v.ignore
    ensures forall i :: 0 <= i < |prog| ==>
      Run(v, prog).out[i] == if !v.injected && FirstMarker(prog) == Some(i)
                             then BuildControlObject(v.bindings, v.mutables)
                             else Rewritten(prog[i], false)
    decreases |prog|
  {
    if prog != [] {
      var step := VisitStatement(v, prog[0]);
      RunPointwise(step.visitor, prog[1..]);
      RunStep(v, prog);
      var r := Run(v, prog);
      var rest := Run(step.visitor, prog[1..]);
      forall i | 0 < i < |prog|
        ensures r.out[i] == if !v.injected && FirstMarker(prog) == Some(i)
                            then BuildControlObject(v.bindings, v.mutables)
                            else Rewritten(prog[i], false)
      {
        assert r.out[i] == rest.out[i - 1];
        assert prog[1..][i - 1] == prog[i];
        if IsMarkerExport(prog[0]) {
          assert FirstMarker(prog) == Some(0);
        } else {
          assert FirstMarker(prog) == Some(i) <==> FirstMarker(prog[1..]) == Some(i - 1);
        }
      }
    }
  }

  /** The traversal adds at most one control object, and adds one exactly
      when it sets `injected`. */
  lemma {:induction false} RunInjectsAtMostOnce(v: Visitor, prog: seq<Statement>)
    ensures var r := Run(v, prog);
      CountControlObjects(r.out) ==
        CountControlObjects(prog) + (if r.visitor.injected && !v.injected then 1 else 0)
    decreases |prog|
  {
    if prog != [] {
      var step := VisitStatement(v, prog[0]);
      RunInjectsAtMostOnce(step.visitor, prog[1..]);
      var out := Run(v, prog).out;
      assert out == [step.out] + Run(step.visitor, prog[1..]).out;
      assert out[1..] == Run(step.visitor, prog[1..]).out;
    }
  }

  /** In a file that is transformed, the object injected carries the scope's
      two name lists, and it stands where the first marker export stood. */
  lemma TransformInjects(source: string, scope: seq<Binding>, prog: seq<Statement>, i: nat)
    requires OptIn(source) && !HasIgnoreToken(source)
    requires FirstMarker(prog) == Some(i)
    ensures Transformed(source, scope, prog)[i] == ControlObject(BindingNames(scope), MutableNames(scope))
    ensures CountControlObjects(Transformed(source, scope, prog)) == CountControlObjects(prog) + 1
  {
    var v := Enter(Initial, source, scope);
    RunPointwise(v, prog);
    RunSetsInjected(v, prog);
    RunInjectsAtMostOnce(v, prog);
  }

  /** In a transformed file a top-level or exported `const` becomes `let`
      exactly when its first declarator is not `mockingbird`; nothing else
      about a declaration changes. */
  lemma TopLevelConstBecomesLet(source: string, scope: seq<Binding>, prog: seq<Statement>, i: nat)
    requires OptIn(source) && !HasIgnoreToken(source)
    requires i < |prog| && (prog[i].Decl? || (prog[i].Export? && FirstMarker(prog) != Some(i)))
    ensures var out := Transformed(source, scope, prog)[i];
      && (if prog[i].Decl? then out.Decl? else out.Export?)
      && out.decl.first == prog[i].decl.first
      && (out.decl.kind == Let && prog[i].decl.kind == Const <==>
            prog[i].decl.kind == Const && prog[i].decl.first != Identifier(Marker))
      && (out.decl.kind != Let ==> out.decl.kind == prog[i].decl.kind)
  {
    RunPointwise(Enter(Initial, source, scope), prog);
  }

  /** In a scope with one entry per name, a name has a single kind. */
  lemma OneKindPerName(scope: seq<Binding>, x: Name, k1: BindingKind, k2: BindingKind)
    requires DistinctNames(scope) && Binding(x, k1) in scope && Binding(x, k2) in scope
    ensures k1 == k2
  {
    var i :| 0 <= i < |scope| && scope[i] == Binding(x, k1);
    var j :| 0 <= j < |scope| && scope[j] == Binding(x, k2);
    assert NamesOf(scope)[i] == NamesOf(scope)[j];
  }

  /** The scope is taken before any rewrite, so a `const` turned into `let`
      is listed among the bindings but not among the mutables. */
  lemma RewrittenConstIsNotMutable(scope: seq<Binding>, x: Name)
    requires DistinctNames(scope) && Binding(x, ConstBinding) in scope && x != Marker
    ensures x in BindingNames(scope) && x !in MutableNames(scope)
  {
    BindingNamesMembers(scope);
    MutableNamesMembers(scope);
    if Binding(x, VarBinding) in scope {
      OneKindPerName(scope, x, ConstBinding, VarBinding);
    }
    if Binding(x, LetBinding) in scope {
      OneKindPerName(scope, x, ConstBinding, LetBinding);
    }
  }

  // --------------------------------------------- the fixtures of the tests

  lemma StartsWithAppend(p: string, q: string)
    ensures StartsWith(p + q, p) && (p + q)[|p|..] == q
  {
    assert (p + q)[..|p|] == p;
  }

  /** A text that begins with `export <kind> mockingbird` opts in. */
  lemma OptInPrefix(kind: string, rest: string)
    requires kind in ["const ", "let ", "var "]
    ensures OptIn("export " + kind + Marker + rest)
  {
    var s := "export " + kind + Marker + rest;
    assert s == "export " + (kind + (Marker + rest));
    StartsWithAppend("export ", kind + (Marker + rest));
    StartsWithAppend(kind, Marker + rest);
    StartsWithAppend(Marker, rest);
    assert s[0..] == s;
    assert OptInAt(s, 0);
  }

  /** Once an object has been injected, the traversal only rewrites. */
  lemma {:induction false} RunAfterInjection(v: Visitor, prog: seq<Statement>)
    requires v.injected && !v.ignore
    ensures Run(v, prog) == Pass(RewriteTail(prog), v)
    decreases |prog|
  {
    if prog != [] {
      RunAfterInjection(v, prog[1..]);
    }
  }

  /** A file that opts in, carries no ignore comment and has the marker
      export first: the traversal injects the object there and rewrites the
      rest. */
  lemma MarkerFirstScenario(source: string, scope: seq<Binding>, head: Statement, body: seq<Statement>)
    requires OptIn(source) && !HasIgnoreToken(source) && IsMarkerExport(head)
    ensures Transformed(source, scope, [head] + body) ==
      [ControlObject(BindingNames(scope), MutableNames(scope))] + RewriteTail(body)
  {
    var v := Enter(Initial, source, scope);
    RunStep(v, [head] + body);
    assert ([head] + body)[1..] == body;
    RunAfterInjection(v.(injected := true), body);
  }

  /** Every statement rewritten, with `ignore` unset. */
  function RewriteTail(prog: seq<Statement>): (r: seq<Statement>)
    ensures |r| == |prog|
    ensures forall i :: 0 <= i < |prog| ==> r[i] == Rewritten(prog[i], false)
  {
    if prog == [] then [] else [Rewritten(prog[0], false)] + RewriteTail(prog[1..])
  }

  /** The texts of the three transformed fixtures, written as the opt-in
      declaration followed by the rest of the file. */
  const ConstTail := "; const one = 1;"
  const NestedTail := "; { const one = 1; }"
  const MutablesTail := "; const one = 1; let two = 2; let three = 3;"
  const ConstSource := "export declare " + "const " + Marker + ConstTail
  const NestedSource := "export " + "let " + Marker + NestedTail
  const MutablesSource := "export " + "var " + Marker + MutablesTail

  /** The plugin is on for each of the three texts: it opts in and carries
      no ignore comment. */
  lemma ConstSourceOptsIn()
    ensures OptIn(ConstSource)
  {
    assert ConstSource == "export declare " + ("const " + (Marker + ConstTail));
    StartsWithAppend("export declare ", "const " + (Marker + ConstTail));
    StartsWithAppend("const ", Marker + ConstTail);
    StartsWithAppend(Marker, ConstTail);
    assert ConstSource[0..] == ConstSource;
    assert OptInAt(ConstSource, 0);
  }

  lemma NestedSourceOptsIn()
    ensures OptIn(NestedSource)
  {
    OptInPrefix("let ", NestedTail);
  }

  lemma MutablesSourceOptsIn()
    ensures OptIn(MutablesSource)
  {
    OptInPrefix("var ", MutablesTail);
  }

  lemma FixturesNotIgnored()
    ensures !HasIgnoreToken(ConstSource) && !HasIgnoreToken(NestedSource) && !HasIgnoreToken(MutablesSource)
  {
    NoDashNoIgnoreToken(ConstSource);
    NoDashNoIgnoreToken(NestedSource);
    NoDashNoIgnoreToken(MutablesSource);
  }

  /** The names the fixtures declare. */
  const One: Name := "one"
  const Two: Name := "two"
  const Three: Name := "three"

  /** The scope tables of the three fixtures, in declaration order. */
  const ConstScope := [Binding(Marker, ConstBinding), Binding(One, ConstBinding)]
  const NestedScope := [Binding(Marker, LetBinding)]
  const MutablesScope := [Binding(Marker, VarBinding), Binding(One, ConstBinding),
                          Binding(Two, LetBinding), Binding(Three, LetBinding)]

  lemma NamesCons(b: Binding, rest: seq<Binding>)
    ensures BindingNames([b] + rest) == (if b.name != Marker then [b.name] else []) + BindingNames(rest)
    ensures MutableNames([b] + rest) ==
      (if b.name != Marker && IsMutableKind(b.kind) then [b.name] else []) + MutableNames(rest)
  {
    assert ([b] + rest)[1..] == rest;
  }

  lemma ConstScopeNames()
    ensures BindingNames(ConstScope) == [One] && MutableNames(ConstScope) == []
  {
    NamesCons(Binding(One, ConstBinding), []);
    NamesCons(Binding(Marker, ConstBinding), [Binding(One, ConstBinding)]);
  }

  lemma NestedScopeNames()
    ensures BindingNames(NestedScope) == [] && MutableNames(NestedScope) == []
  {
    NamesCons(Binding(Marker, LetBinding), []);
  }

  lemma MutablesScopeNames()
    ensures BindingNames(MutablesScope) == [One, Two, Three]
    ensures MutableNames(MutablesScope) == [Two, Three]
  {
    var s3 := [Binding(Three, LetBinding)];
    var s2 := [Binding(Two, LetBinding)] + s3;
    var s1 := [Binding(One, ConstBinding)] + s2;
    NamesCons(Binding(Three, LetBinding), []);
    NamesCons(Binding(Two, LetBinding), s3);
    NamesCons(Binding(One, ConstBinding), s2);
    NamesCons(Binding(Marker, VarBinding), s1);
    assert MutablesScope == [Binding(Marker, VarBinding)] + s1;
  }

  /** A top-level `const` becomes `let`; the scope's `const mockingbird` is
      not listed. `ConstSource` is such a text. */
  lemma ConstBecomesLetScenario(source: string)
    requires OptIn(source) && !HasIgnoreToken(source)
    ensures
      var prog := [Export(Declaration(Const, Identifier(Marker))), Decl(Declaration(Const, Identifier(One)))];
      Transformed(source, ConstScope, prog) ==
        [ControlObject([One], []), Decl(Declaration(Let, Identifier(One)))]
  {
    var head := Export(Declaration(Const, Identifier(Marker)));
    var body := [Decl(Declaration(Const, Identifier(One)))];
    assert [head, Decl(Declaration(Const, Identifier(One)))] == [head] + body;
    ConstScopeNames();
    MarkerFirstScenario(source, ConstScope, head, body);
    assert RewriteTail(body) == [Decl(Declaration(Let, Identifier(One)))];
  }

  /** A `const` inside a block stays `const`. `NestedSource` is such a text. */
  lemma NestedConstScenario(source: string)
    requires OptIn(source) && !HasIgnoreToken(source)
    ensures
      var prog := [Export(Declaration(Let, Identifier(Marker))), Block([Declaration(Const, Identifier(One))])];
      Transformed(source, NestedScope, prog) ==
        [ControlObject([], []), Block([Declaration(Const, Identifier(One))])]
  {
    var head := Export(Declaration(Let, Identifier(Marker)));
    var body := [Block([Declaration(Const, Identifier(One))])];
    assert [head, Block([Declaration(Const, Identifier(One))])] == [head] + body;
    NestedScopeNames();
    MarkerFirstScenario(source, NestedScope, head, body);
    NestedUntouched([Declaration(Const, Identifier(One))], false);
    assert RewriteTail(body) == body;
  }

  const MutablesBody := [Decl(Declaration(Const, Identifier(One))),
                         Decl(Declaration(Let, Identifier(Two))), Decl(Declaration(Let, Identifier(Three)))]

  lemma MutablesBodyRewritten()
    ensures RewriteTail(MutablesBody) == [Decl(Declaration(Let, Identifier(One))),
      Decl(Declaration(Let, Identifier(Two))), Decl(Declaration(Let, Identifier(Three)))]
  {
  }

  lemma MutablesInjected(source: string)
    requires OptIn(source) && !HasIgnoreToken(source)
    ensures Transformed(source, MutablesScope, [Export(Declaration(Var, Identifier(Marker)))] + MutablesBody) ==
      [ControlObject([One, Two, Three], [Two, Three])] + [Decl(Declaration(Let, Identifier(One))),
        Decl(Declaration(Let, Identifier(Two))), Decl(Declaration(Let, Identifier(Three)))]
  {
    MutablesScopeNames();
    MutablesBodyRewritten();
    MarkerFirstScenario(source, MutablesScope, Export(Declaration(Var, Identifier(Marker))), MutablesBody);
  }

  /** Every `var`, `let` and `const` is listed among the bindings, only the
      `let`s among the mutables: the `const` turned into `let` is not.
      `MutablesSource` is such a text. */
  lemma MutablesScenario(source: string)
    requires OptIn(source) && !HasIgnoreToken(source)
    ensures
      var prog := [Export(Declaration(Var, Identifier(Marker))), Decl(Declaration(Const, Identifier(One))),
                   Decl(Declaration(Let, Identifier(Two))), Decl(Declaration(Let, Identifier(Three)))];
      Transformed(source, MutablesScope, prog) ==
        [ControlObject([One, Two, Three], [Two, Three]), Decl(Declaration(Let, Identifier(One))),
         Decl(Declaration(Let, Identifier(Two))), Decl(Declaration(Let, Identifier(Three)))]
  {
    MutablesInjected(source);
    SeqOfFour(Export(Declaration(Var, Identifier(Marker))), MutablesBody);
    SeqOfFour(ControlObject([One, Two, Three], [Two, Three]), [Decl(Declaration(Let, Identifier(One))),
      Decl(Declaration(Let, Identifier(Two))), Decl(Declaration(Let, Identifier(Three)))]);
  }

  lemma SeqOfFour(x: Statement, rest: seq<Statement>)
    requires |rest| == 3
    ensures [x] + rest == [x, rest[0], rest[1], rest[2]]
  {
  }

  /** The texts of the tests "injects mockingbird export" and "stores all
      bindings", and their scope tables. */
  const BindingsTail := "; const one = 1; const two = 2; const three = 3;"
  const InjectSource := "export " + "var " + Marker + ConstTail
  const BindingsSource := "export " + "var " + Marker + BindingsTail
  const InjectScope := [Binding(Marker, VarBinding), Binding(One, ConstBinding)]
  const BindingsScope := [Binding(Marker, VarBinding), Binding(One, ConstBinding),
                          Binding(Two, ConstBinding), Binding(Three, ConstBinding)]

  lemma InjectSourceOptsIn()
    ensures OptIn(InjectSource)
  {
    OptInPrefix("var ", ConstTail);
  }

  lemma BindingsSourceOptsIn()
    ensures OptIn(BindingsSource)
  {
    OptInPrefix("var ", BindingsTail);
  }

  lemma InjectFixturesNotIgnored()
    ensures !HasIgnoreToken(InjectSource) && !HasIgnoreToken(BindingsSource)
  {
    NoDashNoIgnoreToken(InjectSource);
    NoDashNoIgnoreToken(BindingsSource);
  }

  lemma InjectScopeNames()
    ensures BindingNames(InjectScope) == [One] && MutableNames(InjectScope) == []
  {
    NamesCons(Binding(One, ConstBinding), []);
    NamesCons(Binding(Marker, VarBinding), [Binding(One, ConstBinding)]);
  }

  lemma BindingsScopeNames()
    ensures BindingNames(BindingsScope) == [One, Two, Three] && MutableNames(BindingsScope) == []
  {
    var s3 := [Binding(Three, ConstBinding)];
    var s2 := [Binding(Two, ConstBinding)] + s3;
    var s1 := [Binding(One, ConstBinding)] + s2;
    NamesCons(Binding(Three, ConstBinding), []);
    assert BindingNames(s3) == [Three] && MutableNames(s3) == [];
    NamesCons(Binding(Two, ConstBinding), s3);
    assert BindingNames(s2) == [Two, Three] && MutableNames(s2) == [];
    NamesCons(Binding(One, ConstBinding), s2);
    assert BindingNames(s1) == [One, Two, Three] && MutableNames(s1) == [];
    NamesCons(Binding(Marker, VarBinding), s1);
    assert BindingsScope == [Binding(Marker, VarBinding)] + s1;
  }

  /** The marker export is replaced by the control object listing `one`.
      `InjectSource` is such a text. */
  lemma InjectScenario(source: string)
    requires OptIn(source) && !HasIgnoreToken(source)
    ensures
      var prog := [Export(Declaration(Var, Identifier(Marker))), Decl(Declaration(Const, Identifier(One)))];
      Transformed(source, InjectScope, prog) ==
        [ControlObject([One], []), Decl(Declaration(Let, Identifier(One)))]
  {
    var head := Export(Declaration(Var, Identifier(Marker)));
    var body := [Decl(Declaration(Const, Identifier(One)))];
    assert [head, Decl(Declaration(Const, Identifier(One)))] == [head] + body;
    InjectScopeNames();
    MarkerFirstScenario(source, InjectScope, head, body);
    assert RewriteTail(body) == [Decl(Declaration(Let, Identifier(One)))];
  }

  const BindingsBody := [Decl(Declaration(Const, Identifier(One))),
                         Decl(Declaration(Const, Identifier(Two))), Decl(Declaration(Const, Identifier(Three)))]

  lemma BindingsBodyRewritten()
    ensures RewriteTail(BindingsBody) == [Decl(Declaration(Let, Identifier(One))),
      Decl(Declaration(Let, Identifier(Two))), Decl(Declaration(Let, Identifier(Three)))]
  {
  }

  lemma BindingsInjected(source: string)
    requires OptIn(source) && !HasIgnoreToken(source)
    ensures Transformed(source, BindingsScope, [Export(Declaration(Var, Identifier(Marker)))] + BindingsBody) ==
      [ControlObject([One, Two, Three], [])] + [Decl(Declaration(Let, Identifier(One))),
        Decl(Declaration(Let, Identifier(Two))), Decl(Declaration(Let, Identifier(Three)))]
  {
    BindingsScopeNames();
    BindingsBodyRewritten();
    MarkerFirstScenario(source, BindingsScope, Export(Declaration(Var, Identifier(Marker))), BindingsBody);
  }

  /** All three `const`s are listed among the bindings, none among the
      mutables, and all three become `let`. `BindingsSource` is such a text. */
  lemma BindingsScenario(source: string)
    requires OptIn(source) && !HasIgnoreToken(source)
    ensures
      var prog := [Export(Declaration(Var, Identifier(Marker))), Decl(Declaration(Const, Identifier(One))),
                   Decl(Declaration(Const, Identifier(Two))), Decl(Declaration(Const, Identifier(Three)))];
      Transformed(source, BindingsScope, prog) ==
        [ControlObject([One, Two, Three], []), Decl(Declaration(Let, Identifier(One))),
         Decl(Declaration(Let, Identifier(Two))), Decl(Declaration(Let, Identifier(Three)))]
  {
    BindingsInjected(source);
    SeqOfFour(Export(Declaration(Var, Identifier(Marker))), BindingsBody);
    SeqOfFour(ControlObject([One, Two, Three], []), [Decl(Declaration(Let, Identifier(One))),
      Decl(Declaration(Let, Identifier(Two))), Decl(Declaration(Let, Identifier(Three)))]);
  }

  const IgnoredSource := "export var mockingbird; const one = 1; //" + " " + IgnoreToken

  lemma IgnoredSourceHasToken()
    ensures HasIgnoreToken(IgnoredSource)
  {
    assert IgnoredSource[41] == ' ';
    assert IgnoredSource[42..60] == IgnoreToken;
    assert IgnoreTokenAt(IgnoredSource, 41);
  }

  /** The ignore comment turns the plugin off although the file opts in. */
  lemma IgnoreCommentScenario(scope: seq<Binding>)
    ensures
      var prog := [Export(Declaration(Var, Identifier(Marker))), Decl(Declaration(Const, Identifier(One)))];
      HasIgnoreToken(IgnoredSource) && Transformed(IgnoredSource, scope, prog) == prog
  {
    var prog := [Export(Declaration(Var, Identifier(Marker))), Decl(Declaration(Const, Identifier(One)))];
    IgnoredSourceHasToken();
    IgnoredFileUnchanged(IgnoredSource, scope, prog);
  }

  const PlainSource := "const one = 1; { const one = 1; }"

  /** A file without the opt-in export is left alone. */
  lemma NoOptInScenario(scope: seq<Binding>)
    ensures
      var prog := [Decl(Declaration(Const, Identifier(One))), Block([Declaration(Const, Identifier(One))])];
      !OptIn(PlainSource) && Transformed(PlainSource, scope, prog) == prog
  {
    var prog := [Decl(Declaration(Const, Identifier(One))), Block([Declaration(Const, Identifier(One))])];
    NoXNoOptIn(PlainSource);
    IgnoredFileUnchanged(PlainSource, scope, prog);
  }
}
