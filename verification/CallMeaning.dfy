// What a call means when every function has registers of its own (ldo.c, lvm.c, lapi.c).
module CallMeaning {

  const LUA_MINSTACK: nat := 20
  const LUAI_MAXCSTACK: nat := 2048
  const LUA_MULTRET := -1

  // ArgTable: the table that old-style vararg functions find in `arg`
  datatype Value = Nil | Val(id: nat) | ArgTable(items: seq<Value>) | Message(status: Status)

  // Overrun: the frame does not fit in the stack array.
  datatype Status = Done | Raised(error: Value) | StackOverflow | CStackOverflow | ErrorInError | Overrun {
    predicate IsFailure() {
      !Done?
    }

    function PropagateFailure(): Status
      requires IsFailure()
    {
      this
    }
  }

  datatype Proto = Proto(numparams: nat, isVararg: bool, needsArg: bool, maxstacksize: nat)

  // What the compiler guarantees of a function
  predicate ProtoOk(p: Proto) {
    p.numparams + (if p.needsArg then 1 else 0) <= p.maxstacksize && (p.needsArg ==> p.isVararg)
  }

  datatype Callee = Lua(p: Proto, body: Script) | C(body: Script)

  // The steps of a function that matter to the stack; registers are numbered from base. A count of LUA_MULTRET
  // stands for everything up to the top.
  datatype Act =
    | Put(i: nat, v: Value)
    | Copy(i: nat, j: nat)
    | Varargs(a: nat, wanted: int)
    | Reserve(n: nat)
    | Invoke(a: nat, given: int, callee: Callee, wanted: int)
    | Protect(a: nat, given: int, callee: Callee, wanted: int)

  datatype Script = Do(act: Act, next: Script) | Return(a: nat, n: int) | Tail(a: nat, given: int,
    callee: Callee) | Raise

  datatype Outcome = Results(values: seq<Value>) | Fails(status: Status)

  // ---- the frame of a Lua function ----

  function Missing(p: Proto, nargs: nat): nat {
    if nargs < p.numparams then p.numparams - nargs else 0
  }

  function Nils(n: nat): seq<Value> {
    seq(n, _ => Nil)
  }

  // The arguments, with nil for each missing parameter
  function Padded(args: seq<Value>, p: Proto): (r: seq<Value>)
    ensures |r| == |args| + Missing(p, |args|)
  {
    args + Nils(Missing(p, |args|))
  }

  // The old-style table of the arguments beyond the parameters
  function ArgParameter(args: seq<Value>, p: Proto): seq<Value> {
    if p.needsArg then [ArgTable(Padded(args, p)[p.numparams..])] else []
  }

  // The registers of a new frame: the parameters and nothing else
  function Registers(args: seq<Value>, p: Proto): (r: seq<Value>)
    requires ProtoOk(p)
    ensures |r| == p.maxstacksize
  {
    var given := Padded(args, p)[..p.numparams] + ArgParameter(args, p);
    given + Nils(p.maxstacksize - |given|)
  }

  // The results of a call as the caller wants them
  function Wanted(results: seq<Value>, wanted: int): (r: seq<Value>)
    ensures wanted >= 0 ==> |r| == wanted
  {
    if wanted < 0 then results
    else if wanted <= |results| then results[..wanted]
    else results + Nils(wanted - |results|)
  }

  // ---- running a function on registers of its own ----

  // open: the last registers are a list of results of unknown length. Registers beyond regs have no known value.
  datatype Frame = Frame(regs: seq<Value>, limit: nat, lua: bool, open: bool, extra: seq<Value>, params: nat,
                         vararg: bool)

  function Start(callee: Callee, args: seq<Value>): Frame
    requires callee.Lua? ==> ProtoOk(callee.p)
  {
    match callee
    case Lua(p, _) =>
      Frame(Registers(args, p), p.maxstacksize, true, false, if p.isVararg then Padded(args, p)[p.numparams..] else [],
            p.numparams, p.isVararg)
    case C(_) => Frame(args, |args| + LUA_MINSTACK, false, false, [], 0, false)
  }

  // A Lua function starts with its parameters, nil for those that are missing, and nil everywhere else; a vararg
  // function finds the other arguments beside them, or in a table in the register after the parameters.
  lemma StartsWith(p: Proto, body: Script, args: seq<Value>)
    requires ProtoOk(p)
    ensures var fr, n := Start(Lua(p, body), args), p.numparams;
            var others := if |args| > n then args[n..] else [];
            && |fr.regs| == fr.limit == p.maxstacksize && fr.lua && !fr.open
            && (forall k :: 0 <= k < |fr.regs| ==>
                  fr.regs[k] == if k < n && k < |args| then args[k]
                                else if k == n && p.needsArg then ArgTable(others)
                                else Nil)
            && fr.extra == if p.isVararg then others else []
  {
  }

  // A C function starts with its arguments and room for twenty values more.
  lemma StartsWithArguments(body: Script, args: seq<Value>)
    ensures var fr := Start(C(body), args); fr.regs == args && fr.limit == |args| + 20 && !fr.lua && fr.extra == []
  {
  }

  // The number of arguments of a call whose function is in register a
  predicate GivenOk(fr: Frame, a: nat, given: int) {
    && a < |fr.regs|
    && (if given < 0 then given == LUA_MULTRET && fr.lua && fr.open
        else a + 1 + given <= |fr.regs| && (fr.lua ==> !fr.open) && (!fr.lua ==> a + 1 + given == |fr.regs|))
  }

  function Arguments(fr: Frame, a: nat, given: int): seq<Value>
    requires GivenOk(fr, a, given)
  {
    if given < 0 then fr.regs[a + 1..] else fr.regs[a + 1..a + 1 + given]
  }

  predicate WantedOk(fr: Frame, a: nat, wanted: int) {
    if wanted < 0 then wanted == LUA_MULTRET else a + wanted <= fr.limit
  }

  // What the checker ensures of an instruction, and the library of its callers
  predicate Allowed(act: Act, fr: Frame) {
    match act
    case Put(i, _) => i <= |fr.regs| && i < fr.limit && !fr.open
    case Copy(i, j) => i <= |fr.regs| && i < fr.limit && !fr.open && j < |fr.regs|
    case Varargs(a, wanted) => fr.lua && fr.vararg && !fr.open && a <= |fr.regs| && WantedOk(fr, a, wanted)
    case Reserve(n) => !fr.lua
    case Invoke(a, given, _, wanted) => GivenOk(fr, a, given) && WantedOk(fr, a, wanted)
    case Protect(a, given, _, wanted) => !fr.lua && GivenOk(fr, a, given) && WantedOk(fr, a, wanted)
  }

  predicate ReturnOk(fr: Frame, a: nat, n: int) {
    && a <= |fr.regs|
    && (if n < 0 then n == LUA_MULTRET && fr.lua && fr.open
        else a + n <= |fr.regs| && (fr.lua ==> !fr.open) && (!fr.lua ==> a + n == |fr.regs|))
  }

  function With(regs: seq<Value>, i: nat, v: Value): seq<Value>
    requires i <= |regs|
  {
    if i < |regs| then regs[i := v] else regs + [v]
  }

  predicate SameFunction(fr: Frame, fr': Frame) {
    fr'.lua == fr.lua && fr'.params == fr.params && fr'.vararg == fr.vararg && fr'.extra == fr.extra
  }

  // A list of values in register a and above; a C function may use the room they take.
  function Placed(fr: Frame, a: nat, values: seq<Value>, wanted: int): (r: Frame)
    requires a <= |fr.regs|
    ensures SameFunction(fr, r)
  {
    fr.(regs := fr.regs[..a] + Wanted(values, wanted), open := fr.lua && wanted < 0,
        limit := if !fr.lua && wanted < 0 && fr.limit < a + |values| then a + |values| else fr.limit)
  }

  // One step other than a call
  function Stepped(act: Act, fr: Frame): (r: Frame)
    requires Allowed(act, fr) && !act.Invoke? && !act.Protect?
    ensures SameFunction(fr, r)
  {
    match act
    case Put(i, v) => fr.(regs := With(fr.regs, i, v))
    case Copy(i, j) => fr.(regs := With(fr.regs, i, fr.regs[j]))
    case Varargs(a, wanted) => Placed(fr, a, fr.extra, wanted)
    case Reserve(n) =>
      if |fr.regs| + n > LUAI_MAXCSTACK || fr.limit >= |fr.regs| + n then fr else fr.(limit := |fr.regs| + n)
  }

  // The error value a protected call leaves where its function was
  function ErrorValue(st: Status): Value {
    if st.Raised? then st.error else Message(st)
  }

  predicate Exhausted(st: Status) {
    st.StackOverflow? || st.CStackOverflow? || st.ErrorInError? || st.Overrun?
  }

  // callee called with args may end this way: by running its body or, where room is scarce, for want of it.
  ghost predicate Calls(callee: Callee, args: seq<Value>, out: Outcome, scarce: bool)
    decreases callee
  {
    || (scarce && out.Fails? && Exhausted(out.status))
    || ((callee.Lua? ==> ProtoOk(callee.p)) && Runs(callee.body, Start(callee, args), out, scarce))
  }

  // A function may end this way when it goes on with s in the frame fr.
  ghost predicate Runs(s: Script, fr: Frame, out: Outcome, scarce: bool)
    decreases s
  {
    match s
    case Return(a, n) => ReturnOk(fr, a, n) && out == Results(if n < 0 then fr.regs[a..] else fr.regs[a..a + n])
    case Raise => fr.regs != [] && out == Fails(Raised(fr.regs[|fr.regs| - 1]))
    case Tail(a, given, callee) => GivenOk(fr, a, given) && Calls(callee, Arguments(fr, a, given), out, scarce)
    case Do(act, next) =>
      && Allowed(act, fr)
      && match act {
        case Invoke(a, given, callee, wanted) =>
          exists r :: Calls(callee, Arguments(fr, a, given), r, scarce)
                      && (if r.Results? then Runs(next, Placed(fr, a, r.values, wanted), out, scarce) else out == r)
        case Protect(a, given, callee, wanted) =>
          exists r :: Calls(callee, Arguments(fr, a, given), r, scarce) &&
            Runs(next, Recovered(fr, a, r, wanted), out, scarce)
        case _ => Runs(next, Stepped(act, fr), out, scarce)
      }
  }

  function Recovered(fr: Frame, a: nat, r: Outcome, wanted: int): (fr': Frame)
    requires a < |fr.regs|
    ensures SameFunction(fr, fr')
  {
    if r.Results? then Placed(fr, a, r.values, wanted)
    else Placed(fr, a, [ErrorValue(r.status)], if wanted < 0 then LUA_MULTRET else 1)
  }

  // Every step a function can come to is one its compiler or the library allows.
  ghost predicate Proper(s: Script, fr: Frame, scarce: bool)
    decreases s
  {
    match s
    case Return(a, n) => ReturnOk(fr, a, n)
    case Raise => !fr.lua && fr.regs != []
    case Tail(a, given, callee) =>
      fr.lua && GivenOk(fr, a, given) && ProperCall(callee, Arguments(fr, a, given), scarce)
    case Do(act, next) =>
      && Allowed(act, fr)
      && match act {
        case Invoke(a, given, callee, wanted) =>
          && ProperCall(callee, Arguments(fr, a, given), scarce)
          && forall vs :: Calls(callee, Arguments(fr, a, given), Results(vs), scarce) ==>
            Proper(next, Placed(fr, a, vs, wanted), scarce)
        case Protect(a, given, callee, wanted) =>
          && ProperCall(callee, Arguments(fr, a, given), scarce)
          && forall r :: Calls(callee, Arguments(fr, a, given), r, scarce) ==>
            Proper(next, Recovered(fr, a, r, wanted), scarce)
        case _ => Proper(next, Stepped(act, fr), scarce)
      }
  }

  ghost predicate ProperCall(callee: Callee, args: seq<Value>, scarce: bool)
    decreases callee
  {
    (callee.Lua? ==> ProtoOk(callee.p)) && Proper(callee.body, Start(callee, args), scarce)
  }

  // Where there is room for everything, there is one way to end.
  lemma {:induction false} OneOutcome(s: Script, fr: Frame, out: Outcome, out': Outcome)
    requires Runs(s, fr, out, false) && Runs(s, fr, out', false)
    ensures out == out'
    decreases s
  {
    match s
    case Return(_, _) | Raise =>
    case Tail(a, given, callee) =>
      OneResult(callee, Arguments(fr, a, given), out, out');
    case Do(act, next) =>
      if act.Invoke? || act.Protect? {
        var args := Arguments(fr, act.a, act.given);
        var r := CallThere(act, next, fr, out);
        var r' := CallThere(act, next, fr, out');
        OneResult(act.callee, args, r, r');
        if act.Protect? || r.Results? {
          OneOutcome(next, Recovered(fr, act.a, r, act.wanted), out, out');
        }
      } else {
        OneOutcome(next, Stepped(act, fr), out, out');
      }
  }

  lemma {:induction false} OneResult(callee: Callee, args: seq<Value>, out: Outcome, out': Outcome)
    requires Calls(callee, args, out, false) && Calls(callee, args, out', false)
    ensures out == out'
    decreases callee
  {
    OneOutcome(callee.body, Start(callee, args), out, out');
  }

  lemma CallThere(act: Act, next: Script, fr: Frame, out: Outcome) returns (r: Outcome)
    requires (act.Invoke? || act.Protect?) && Runs(Do(act, next), fr, out, false)
    ensures GivenOk(fr, act.a, act.given) && Calls(act.callee, Arguments(fr, act.a, act.given), r, false)
    ensures if act.Protect? || r.Results? then Runs(next, Recovered(fr, act.a, r, act.wanted), out, false) else out == r
  {
    if act.Invoke? {
      r :| Calls(act.callee, Arguments(fr, act.a, act.given), r, false)
           && (if r.Results? then Runs(next, Placed(fr, act.a, r.values, act.wanted), out, false) else out == r);
    } else {
      r :| Calls(act.callee, Arguments(fr, act.a, act.given), r, false)
           && Runs(next, Recovered(fr, act.a, r, act.wanted), out, false);
    }
  }

  // ---- errors ----

  // The function raises v: v is in the last register of the frame that comes to Raise, and no protected call of its
  // own is around it.
  ghost predicate ComesToRaise(s: Script, fr: Frame, v: Value, scarce: bool)
    decreases s
  {
    match s
    case Return(_, _) => false
    case Raise => fr.regs != [] && v == fr.regs[|fr.regs| - 1]
    case Tail(a, given, callee) => GivenOk(fr, a, given) && CallRaises(callee, Arguments(fr, a, given), v, scarce)
    case Do(act, next) =>
      && Allowed(act, fr)
      && match act {
        case Invoke(a, given, callee, wanted) =>
          || CallRaises(callee, Arguments(fr, a, given), v, scarce)
          || exists vs :: Calls(callee, Arguments(fr, a, given), Results(vs), scarce)
                          && ComesToRaise(next, Placed(fr, a, vs, wanted), v, scarce)
        case Protect(a, given, callee, wanted) =>
          exists r :: Calls(callee, Arguments(fr, a, given), r, scarce)
                      && ComesToRaise(next, Recovered(fr, a, r, wanted), v, scarce)
        case _ => ComesToRaise(next, Stepped(act, fr), v, scarce)
      }
  }

  ghost predicate CallRaises(callee: Callee, args: seq<Value>, v: Value, scarce: bool)
    decreases callee
  {
    (callee.Lua? ==> ProtoOk(callee.p)) && ComesToRaise(callee.body, Start(callee, args), v, scarce)
  }

  // These are the runs that end with the error v.
  lemma {:induction false} RaisedValue(s: Script, fr: Frame, v: Value, scarce: bool)
    ensures Runs(s, fr, Fails(Raised(v)), scarce) <==> ComesToRaise(s, fr, v, scarce)
    decreases s
  {
    var out := Fails(Raised(v));
    match s
    case Return(_, _) | Raise =>
    case Tail(a, given, callee) =>
      if GivenOk(fr, a, given) {
        RaisedCall(callee, Arguments(fr, a, given), v, scarce);
      }
    case Do(act, next) =>
      if Allowed(act, fr) {
        match act
        case Invoke(a, given, callee, wanted) =>
          var args := Arguments(fr, a, given);
          RaisedCall(callee, args, v, scarce);
          forall vs
            ensures Runs(next, Placed(fr, a, vs, wanted), out, scarce)
                    <==> ComesToRaise(next, Placed(fr, a, vs, wanted), v, scarce)
          {
            RaisedValue(next, Placed(fr, a, vs, wanted), v, scarce);
          }
          if Runs(s, fr, out, scarce) {
            var r :| Calls(callee, args, r, scarce)
                     && (if r.Results? then Runs(next, Placed(fr, a, r.values, wanted), out, scarce) else out == r);
            assert r.Results? ==> Calls(callee, args, Results(r.values), scarce);
          }
        case Protect(a, given, callee, wanted) =>
          forall r
            ensures Runs(next, Recovered(fr, a, r, wanted), out, scarce)
                    <==> ComesToRaise(next, Recovered(fr, a, r, wanted), v, scarce)
          {
            RaisedValue(next, Recovered(fr, a, r, wanted), v, scarce);
          }
        case _ =>
          RaisedValue(next, Stepped(act, fr), v, scarce);
      }
  }

  lemma {:induction false} RaisedCall(callee: Callee, args: seq<Value>, v: Value, scarce: bool)
    ensures Calls(callee, args, Fails(Raised(v)), scarce) <==> CallRaises(callee, args, v, scarce)
    decreases callee
  {
    if callee.Lua? ==> ProtoOk(callee.p) {
      RaisedValue(callee.body, Start(callee, args), v, scarce);
    }
  }

  ghost predicate MayRaise(callee: Callee, args: seq<Value>) {
    exists v :: CallRaises(callee, args, v, false)
  }

  lemma RaisedResult(callee: Callee, args: seq<Value>, r: Outcome, scarce: bool)
    requires Calls(callee, args, r, scarce)
    ensures !scarce && MayRaise(callee, args) ==>
              r.Fails? && r.status.Raised? && CallRaises(callee, args, r.status.error, false)
  {
    if !scarce && MayRaise(callee, args) {
      var v :| CallRaises(callee, args, v, false);
      RaisedCall(callee, args, v, false);
      OneResult(callee, args, r, Fails(Raised(v)));
    }
  }

  // No other value is raised.
  lemma OneRaised(callee: Callee, args: seq<Value>, v: Value, v': Value)
    requires CallRaises(callee, args, v, false) && CallRaises(callee, args, v', false)
    ensures v == v'
  {
    RaisedCall(callee, args, v, false);
    RaisedCall(callee, args, v', false);
    OneResult(callee, args, Fails(Raised(v)), Fails(Raised(v')));
  }

  // A function that catches v goes on with v in place of the function it called, and nothing above it.
  lemma Caught(act: Act, next: Script, fr: Frame, v: Value, out: Outcome) returns (fr': Frame)
    requires act.Protect? && Runs(Do(act, next), fr, out, false)
    requires CallRaises(act.callee, Arguments(fr, act.a, act.given), v, false)
    ensures fr'.regs == fr.regs[..act.a] + [v] && SameFunction(fr, fr') && !fr'.open
    ensures Runs(next, fr', out, false)
  {
    var args := Arguments(fr, act.a, act.given);
    var r := CallThere(act, next, fr, out);
    RaisedCall(act.callee, args, v, false);
    OneResult(act.callee, args, r, Fails(Raised(v)));
    fr' := Recovered(fr, act.a, r, act.wanted);
  }

  // A failure of another kind leaves a value that tells which.
  lemma FailuresDiffer(st: Status, st': Status)
    requires Exhausted(st) && Exhausted(st') && ErrorValue(st) == ErrorValue(st')
    ensures st == st'
  {
  }

  // ---- how much room a function takes ----

  // How deep the calls of a function go
  function Nesting(s: Script): nat
    decreases s
  {
    match s
    case Return(_, _) | Raise => 0
    case Tail(_, _, callee) => Depth(callee)
    case Do(act, next) =>
      var d := if act.Invoke? || act.Protect? then Depth(act.callee) else 0;
      if d >= Nesting(next) then d else Nesting(next)
  }

  function Depth(callee: Callee): nat
    decreases callee
  {
    1 + Nesting(callee.body)
  }

  // How many of them are nested calls of C code, which a C function makes
  function CNesting(s: Script, lua: bool): nat
    decreases s
  {
    match s
    case Return(_, _) | Raise => 0
    case Tail(_, _, callee) => CNesting(callee.body, callee.Lua?)
    case Do(act, next) =>
      var d := if act.Invoke? || act.Protect? then
                 (if lua then 0 else 1) + CNesting(act.callee.body, act.callee.Lua?) else 0;
      if d >= CNesting(next, lua) then d else CNesting(next, lua)
  }

  // No vararg function has more parameters than always have room when they are missing.
  predicate Snug(s: Script, limit: nat)
    decreases s
  {
    match s
    case Return(_, _) | Raise => true
    case Tail(_, _, callee) => SnugCallee(callee, limit)
    case Do(act, next) => (act.Invoke? || act.Protect? ==> SnugCallee(act.callee, limit)) && Snug(next, limit)
  }

  predicate SnugCallee(callee: Callee, limit: nat)
    decreases callee
  {
    (callee.Lua? && callee.p.isVararg ==> callee.p.numparams <= limit) && Snug(callee.body, limit)
  }
}
