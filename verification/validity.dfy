/**
 The handle invariant: every object the container built that it still
 knows about (in the instance map, in a parameter, in a definition, or in
 the effect trace) carries a handle below the counter. Every operation
 keeps it, given inputs that mention no handle the container has not
 handed out yet. Under it, each build returns an object that nothing in
 the container referred to before.
 */
module Validity {
  import opened Values
  import opened Definitions
  import opened Containers
  import GenerationLemmas

  predicate HandleIssued(h: Handle, next: nat) {
    h.Built? ==> h.n < next
  }

  /** Every `Built` handle inside `v`, at any depth of nested arrays, is below `next`. */
  predicate Issued(v: Value, next: nat)
    decreases v
  {
    match v
    case Obj(h) => HandleIssued(h, next)
    case Arr(xs) => forall i :: 0 <= i < |xs| ==> Issued(xs[i], next)
    case _ => true
  }

  predicate AllIssued(vs: seq<Value>, next: nat) {
    forall i :: 0 <= i < |vs| ==> Issued(vs[i], next)
  }

  predicate DefinitionIssued(d: Definition, next: nat) {
    && AllIssued(d.arguments, next)
    && (forall i :: 0 <= i < |d.properties| ==> Issued(d.properties[i].value, next))
    && (forall i :: 0 <= i < |d.calls| ==> AllIssued(d.calls[i].args, next))
  }

  predicate EventIssued(e: Event, next: nat) {
    && HandleIssued(e.obj, next)
    && match e
       case Constructed(_, _, args) => AllIssued(args, next)
       case PropertyAssigned(_, _, value) => Issued(value, next)
       case MethodCalled(_, _, args) => AllIssued(args, next)
  }

  predicate EventsIssued(es: seq<Event>, next: nat) {
    forall i :: 0 <= i < |es| ==> EventIssued(es[i], next)
  }

  /** The container mentions no object it has not built yet. */
  predicate Valid(c: Container) {
    && (forall k :: k in c.services ==> Issued(c.services[k], c.nextHandle))
    && (forall k :: k in c.parameters ==> Issued(c.parameters[k], c.nextHandle))
    && (forall k :: k in c.definitions ==> DefinitionIssued(c.definitions[k], c.nextHandle))
    && EventsIssued(c.effects, c.nextHandle)
  }

  // ---------------------------------------------------------------------
  // Raising the counter keeps everything issued

  lemma {:induction false} IssuedMonotone(v: Value, next: nat, next': nat)
    requires Issued(v, next) && next <= next'
    ensures Issued(v, next')
    decreases v
  {
    match v
    case Arr(xs) =>
      forall i | 0 <= i < |xs| ensures Issued(xs[i], next') {
        IssuedMonotone(xs[i], next, next');
      }
    case _ =>
  }

  lemma AllIssuedMonotone(vs: seq<Value>, next: nat, next': nat)
    requires AllIssued(vs, next) && next <= next'
    ensures AllIssued(vs, next')
  {
    forall i | 0 <= i < |vs| ensures Issued(vs[i], next') {
      IssuedMonotone(vs[i], next, next');
    }
  }

  lemma DefinitionIssuedMonotone(d: Definition, next: nat, next': nat)
    requires DefinitionIssued(d, next) && next <= next'
    ensures DefinitionIssued(d, next')
  {
    AllIssuedMonotone(d.arguments, next, next');
    forall i | 0 <= i < |d.properties| ensures Issued(d.properties[i].value, next') {
      IssuedMonotone(d.properties[i].value, next, next');
    }
    forall i | 0 <= i < |d.calls| ensures AllIssued(d.calls[i].args, next') {
      AllIssuedMonotone(d.calls[i].args, next, next');
    }
  }

  lemma EventsIssuedMonotone(es: seq<Event>, next: nat, next': nat)
    requires EventsIssued(es, next) && next <= next'
    ensures EventsIssued(es, next')
  {
    forall i | 0 <= i < |es| ensures EventIssued(es[i], next') {
      match es[i]
      case Constructed(_, _, args) => AllIssuedMonotone(args, next, next');
      case PropertyAssigned(_, _, value) => IssuedMonotone(value, next, next');
      case MethodCalled(_, _, args) => AllIssuedMonotone(args, next, next');
    }
  }

  /** A valid container stays valid when only its counter is raised. */
  lemma ValidLater(c: Container, next': nat)
    requires Valid(c) && c.nextHandle <= next'
    ensures Valid(c.(nextHandle := next'))
  {
    forall k | k in c.services ensures Issued(c.services[k], next') {
      IssuedMonotone(c.services[k], c.nextHandle, next');
    }
    forall k | k in c.parameters ensures Issued(c.parameters[k], next') {
      IssuedMonotone(c.parameters[k], c.nextHandle, next');
    }
    forall k | k in c.definitions ensures DefinitionIssued(c.definitions[k], next') {
      DefinitionIssuedMonotone(c.definitions[k], c.nextHandle, next');
    }
    EventsIssuedMonotone(c.effects, c.nextHandle, next');
  }

  // ---------------------------------------------------------------------
  // Every operation keeps the invariant

  lemma NewContainerValid()
    ensures Valid(NewContainer())
  {
  }

  /** The setters keep the invariant when what they store mentions only objects already built. */
  lemma SettersPreserveValid(c: Container, id: string, other: string, v: Value, d: Definition)
    requires Valid(c)
    ensures Issued(v, c.nextHandle) ==> Valid(Set(c, id, v)) && Valid(SetParameter(c, id, v))
    ensures DefinitionIssued(d, c.nextHandle) ==> Valid(SetDefinition(c, id, d))
    ensures Valid(SetAlias(c, id, other))
  {
  }

  /** The events a build appends for object `h` of definition `d` mention only issued objects. */
  lemma SetupEventsIssued(h: Handle, d: Definition, next: nat)
    requires DefinitionIssued(d, next) && HandleIssued(h, next)
    ensures EventsIssued(PropertyEvents(h, d.properties) + CallEvents(h, d.calls), next)
  {
    var es := PropertyEvents(h, d.properties) + CallEvents(h, d.calls);
    forall i | 0 <= i < |es| ensures EventIssued(es[i], next) {
      if i < |d.properties| {
        assert es[i] == PropertyAssigned(h, d.properties[i].name, d.properties[i].value);
      } else {
        var j := i - |d.properties|;
        assert es[i] == MethodCalled(h, d.calls[j].methodName, d.calls[j].args);
      }
    }
  }

  /** Building keeps the invariant and returns an issued object. */
  lemma {:induction false} GeneratePreservesValid(c: Container, d: Definition, fuel: nat)
    requires Valid(c) && DefinitionIssued(d, c.nextHandle)
    ensures Valid(Generate(c, d, fuel).state)
    ensures Generate(c, d, fuel).result.Ok? ==>
      Issued(Generate(c, d, fuel).result.value, Generate(c, d, fuel).state.nextHandle)
    decreases fuel, 2
  {
    RewriteArgumentsPreserveValid(c, d.arguments, fuel);
    var rewritten := RewriteArguments(c, d.arguments, fuel);
    if rewritten.result.Ok? {
      DefinitionIssuedMonotone(d, c.nextHandle, rewritten.state.nextHandle);
      ConstructPreservesValid(rewritten.state, d, rewritten.result.value);
    }
  }

  /** Constructing the next object from issued arguments, and setting it up, keeps the invariant. */
  lemma ConstructPreservesValid(s: Container, d: Definition, args: seq<Value>)
    requires Valid(s) && DefinitionIssued(d, s.nextHandle) && AllIssued(args, s.nextHandle)
    ensures var h := Built(s.nextHandle);
      Valid(s.(nextHandle := s.nextHandle + 1,
               effects := s.effects + [Constructed(h, d.className, args)]
                          + PropertyEvents(h, d.properties) + CallEvents(h, d.calls)))
  {
    var n := s.nextHandle + 1;
    var h := Built(s.nextHandle);
    ValidLater(s, n);
    DefinitionIssuedMonotone(d, s.nextHandle, n);
    AllIssuedMonotone(args, s.nextHandle, n);
    SetupEventsIssued(h, d, n);
    var es := s.effects + [Constructed(h, d.className, args)];
    assert EventsIssued(es, n);
    assert es + PropertyEvents(h, d.properties) + CallEvents(h, d.calls)
        == es + (PropertyEvents(h, d.properties) + CallEvents(h, d.calls));
  }

  lemma {:induction false} RewriteArgumentsPreserveValid(c: Container, args: seq<Value>, fuel: nat)
    requires Valid(c) && AllIssued(args, c.nextHandle)
    ensures Valid(RewriteArguments(c, args, fuel).state)
    ensures RewriteArguments(c, args, fuel).result.Ok? ==>
      AllIssued(RewriteArguments(c, args, fuel).result.value, RewriteArguments(c, args, fuel).state.nextHandle)
    decreases fuel, 1, |args|
  {
    if args != [] {
      RewriteArgumentPreservesValid(c, args[0], fuel);
      var first := RewriteArgument(c, args[0], fuel);
      if first.result.Ok? {
        AllIssuedMonotone(args[1..], c.nextHandle, first.state.nextHandle);
        RewriteArgumentsPreserveValid(first.state, args[1..], fuel);
        var rest := RewriteArguments(first.state, args[1..], fuel);
        if rest.result.Ok? {
          IssuedMonotone(first.result.value, first.state.nextHandle, rest.state.nextHandle);
          assert RewriteArguments(c, args, fuel).result.value == [first.result.value] + rest.result.value;
        }
      }
    }
  }

  lemma {:induction false} RewriteArgumentPreservesValid(c: Container, a: Value, fuel: nat)
    requires Valid(c) && Issued(a, c.nextHandle)
    ensures Valid(RewriteArgument(c, a, fuel).state)
    ensures RewriteArgument(c, a, fuel).result.Ok? ==>
      Issued(RewriteArgument(c, a, fuel).result.value, RewriteArgument(c, a, fuel).state.nextHandle)
    decreases fuel, 0
  {
    if Classify(a).ServiceReference? {
      var key := Resolve(c, Classify(a).id);
      GenerationLemmas.ReferenceUnfolds(c, a, fuel);
      if key in c.definitions && fuel > 0 {
        GeneratePreservesValid(c, c.definitions[key], fuel - 1);
      }
    }
  }

  /** `get` keeps the invariant and returns an issued object. */
  lemma GetPreservesValid(c: Container, id: string, fuel: nat)
    requires Valid(c)
    ensures Valid(Get(c, id, fuel).state)
    ensures Get(c, id, fuel).result.Ok? ==> Issued(Get(c, id, fuel).result.value, Get(c, id, fuel).state.nextHandle)
  {
    var key := Resolve(c, id);
    if key in c.definitions && !DirectPrivate(c, id) && key !in c.services {
      GeneratePreservesValid(c, c.definitions[key], fuel);
    }
  }

  // ---------------------------------------------------------------------
  // Freshness

  /**
   On a valid container, an object that `get` builds is new: it differs
   from every stored instance, every parameter value and every declared
   constructor argument, and no event of the trace is about it.
   */
  lemma BuiltByGetIsNew(c: Container, id: string, fuel: nat)
    requires Valid(c)
    requires Resolve(c, id) !in c.services
    ensures var o := Get(c, id, fuel);
      o.result.Ok? ==>
        && o.result.value.Obj? && o.result.value.handle.Built?
        && (forall k :: k in c.services ==> c.services[k] != o.result.value)
        && (forall k :: k in c.parameters ==> c.parameters[k] != o.result.value)
        && (forall k, i :: k in c.definitions && 0 <= i < |c.definitions[k].arguments| ==>
              c.definitions[k].arguments[i] != o.result.value)
        && (forall i :: 0 <= i < |c.effects| ==> c.effects[i].obj != o.result.value.handle)
  {
    var o := Get(c, id, fuel);
    if o.result.Ok? {
      assert Resolve(c, id) in c.definitions;
      var n := o.result.value.handle.n;
      assert n >= c.nextHandle;
      forall k | k in c.services ensures c.services[k] != o.result.value {
        assert Issued(c.services[k], c.nextHandle);
      }
      forall k | k in c.parameters ensures c.parameters[k] != o.result.value {
        assert Issued(c.parameters[k], c.nextHandle);
      }
      forall k, i | k in c.definitions && 0 <= i < |c.definitions[k].arguments|
        ensures c.definitions[k].arguments[i] != o.result.value
      {
        assert Issued(c.definitions[k].arguments[i], c.nextHandle);
      }
      forall i | 0 <= i < |c.effects| ensures c.effects[i].obj != o.result.value.handle {
        assert EventIssued(c.effects[i], c.nextHandle);
      }
    }
  }
  // ---------------------------------------------------------------------
  // Numbering

  /** The objects the trace records as constructed, in order. */
  function Constructions(es: seq<Event>): (hs: seq<Handle>)
    ensures |hs| <= |es|
  {
    if es == [] then []
    else (if es[0].Constructed? then [es[0].obj] else []) + Constructions(es[1..])
  }

  /** `Built(0)`, ..., `Built(n - 1)`. */
  function FirstHandles(n: nat): (hs: seq<Handle>)
    ensures |hs| == n && forall i :: 0 <= i < n ==> hs[i] == Built(i)
  {
    seq(n, i requires 0 <= i < n => Built(i))
  }

  /** `Built(n)` is the n-th object the container constructed, counting from 0, and the counter is how many it constructed. */
  predicate Numbered(c: Container) {
    Constructions(c.effects) == FirstHandles(c.nextHandle)
  }

  lemma {:induction false} ConstructionsAppend(a: seq<Event>, b: seq<Event>)
    ensures Constructions(a + b) == Constructions(a) + Constructions(b)
    decreases |a|
  {
    if a != [] {
      assert (a + b)[0] == a[0] && (a + b)[1..] == a[1..] + b;
      ConstructionsAppend(a[1..], b);
      var head := if a[0].Constructed? then [a[0].obj] else [];
      assert Constructions(a + b) == head + Constructions(a[1..] + b);
      assert head + (Constructions(a[1..]) + Constructions(b)) == (head + Constructions(a[1..])) + Constructions(b);
    } else {
      assert a + b == b;
    }
  }

  lemma {:induction false} NoConstructions(es: seq<Event>)
    requires forall i :: 0 <= i < |es| ==> !es[i].Constructed?
    ensures Constructions(es) == []
    decreases |es|
  {
    if es != [] {
      NoConstructions(es[1..]);
    }
  }

  /** Appending the construction of the next handle, and its set-up, keeps the numbering. */
  lemma ConstructNext(es: seq<Event>, n: nat, className: string, args: seq<Value>, d: Definition)
    requires Constructions(es) == FirstHandles(n)
    ensures Constructions(es + [Constructed(Built(n), className, args)]
                          + PropertyEvents(Built(n), d.properties) + CallEvents(Built(n), d.calls))
            == FirstHandles(n + 1)
  {
    var e := Constructed(Built(n), className, args);
    var setup := PropertyEvents(Built(n), d.properties) + CallEvents(Built(n), d.calls);
    NoConstructions(setup);
    ConstructionsAppend(es, [e]);
    ConstructionsAppend(es + [e], setup);
    assert Constructions([e]) == [Built(n)];
    assert FirstHandles(n + 1) == FirstHandles(n) + [Built(n)];
    assert es + [e] + PropertyEvents(Built(n), d.properties) + CallEvents(Built(n), d.calls) == (es + [e]) + setup;
  }

  /** Building appends exactly one construction, of the next handle, after those of the nested builds. */
  lemma {:induction false} GenerateNumbers(c: Container, d: Definition, fuel: nat)
    requires Numbered(c)
    ensures Numbered(Generate(c, d, fuel).state)
    decreases fuel, 2
  {
    RewriteArgumentsNumber(c, d.arguments, fuel);
    var rewritten := RewriteArguments(c, d.arguments, fuel);
    if rewritten.result.Ok? {
      var s := rewritten.state;
      ConstructNext(s.effects, s.nextHandle, d.className, rewritten.result.value, d);
    }
  }

  lemma {:induction false} RewriteArgumentsNumber(c: Container, args: seq<Value>, fuel: nat)
    requires Numbered(c)
    ensures Numbered(RewriteArguments(c, args, fuel).state)
    decreases fuel, 1, |args|
  {
    if args != [] {
      RewriteArgumentNumbers(c, args[0], fuel);
      var first := RewriteArgument(c, args[0], fuel);
      if first.result.Ok? {
        RewriteArgumentsNumber(first.state, args[1..], fuel);
      }
    }
  }

  lemma {:induction false} RewriteArgumentNumbers(c: Container, a: Value, fuel: nat)
    requires Numbered(c)
    ensures Numbered(RewriteArgument(c, a, fuel).state)
    decreases fuel, 0
  {
    if Classify(a).ServiceReference? {
      var key := Resolve(c, Classify(a).id);
      GenerationLemmas.ReferenceUnfolds(c, a, fuel);
      if key in c.definitions && fuel > 0 {
        GenerateNumbers(c, c.definitions[key], fuel - 1);
      }
    }
  }

  /** A new container has constructed nothing; the setters construct nothing; `get` keeps the numbering. */
  lemma OperationsNumber(c: Container, id: string, other: string, v: Value, d: Definition, fuel: nat)
    requires Numbered(c)
    ensures Numbered(NewContainer())
    ensures Numbered(Set(c, id, v)) && Numbered(SetParameter(c, id, v))
    ensures Numbered(SetDefinition(c, id, d)) && Numbered(SetAlias(c, id, other))
    ensures Numbered(Get(c, id, fuel).state)
  {
    assert FirstHandles(0) == [];
    var key := Resolve(c, id);
    if key in c.definitions && !DirectPrivate(c, id) && key !in c.services {
      GenerateNumbers(c, c.definitions[key], fuel);
    }
  }
}
