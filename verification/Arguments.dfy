/**
 How c-run-time.c passes arguments.  A function with a signature of `required` arguments and
 perhaps optionals takes `ImpArgs` implementation arguments: the required ones, then, if there
 are optionals, one vector of them.  Up to seven are passed spread, more as one vector.
 */
module Arguments {
  import opened Options

  type Id = nat

  /** A Dylan value: a word, an object known by its address, or a vector. */
  datatype Value = Word(w: int) | Ref(id: Id) | Vector(elements: seq<Value>)

  datatype Signature = Signature(required: nat, optionals: bool)

  const MAX_ARGUMENTS: nat := 256
  const MAX_SPREAD: nat := 7

  function ImpArgs(sig: Signature): nat { sig.required + if sig.optionals then 1 else 0 }

  /** A list of actual arguments that passes the argument count check. */
  predicate Accepts(sig: Signature, args: seq<Value>) {
    |args| <= MAX_ARGUMENTS && if sig.optionals then sig.required <= |args| else |args| == sig.required
  }

  function Pack(sig: Signature, args: seq<Value>): seq<Value>
    requires sig.required <= |args|
  {
    if sig.optionals then args[..sig.required] + [Vector(args[sig.required..])] else args
  }

  predicate WellPacked(sig: Signature, imp: seq<Value>) {
    |imp| == ImpArgs(sig) && (sig.optionals ==> imp[sig.required].Vector?)
  }

  function Unpack(sig: Signature, imp: seq<Value>): seq<Value>
    requires WellPacked(sig, imp)
  {
    if sig.optionals then imp[..sig.required] + imp[sig.required].elements else imp
  }

  /** What is put in the argument registers. */
  function Passed(imp: seq<Value>): seq<Value> { if |imp| > MAX_SPREAD then [Vector(imp)] else imp }

  lemma PackUnpack(sig: Signature, args: seq<Value>)
    requires Accepts(sig, args)
    ensures WellPacked(sig, Pack(sig, args)) && Unpack(sig, Pack(sig, args)) == args
  {
    assert args == args[..sig.required] + args[sig.required..];
  }

  lemma UnpackPack(sig: Signature, imp: seq<Value>)
    requires WellPacked(sig, imp)
    ensures sig.required <= |Unpack(sig, imp)| && Pack(sig, Unpack(sig, imp)) == imp
  {
    if sig.optionals {
      assert imp == imp[..sig.required] + [imp[sig.required]];
      assert Unpack(sig, imp)[sig.required..] == imp[sig.required].elements;
    }
  }

  /** The argument registers determine the implementation arguments. */
  lemma PassedInjective(sig: Signature, imp: seq<Value>, imp': seq<Value>)
    requires |imp| == ImpArgs(sig) == |imp'| && Passed(imp) == Passed(imp')
    ensures imp == imp'
  {
    if |imp| > MAX_SPREAD { assert Passed(imp)[0] == Passed(imp')[0]; }
  }

  /** What is accepted and what is passed, in plain numbers. */
  lemma CountsAndConventions(sig: Signature, args: seq<Value>)
    ensures Accepts(sig, args) <==>
            (|args| == sig.required <= 256 && !sig.optionals) || (sig.required <= |args| <= 256 && sig.optionals)
    ensures Accepts(sig, args) && !sig.optionals ==>
            Passed(Pack(sig, args)) == if sig.required <= 7 then args else [Vector(args)]
    ensures Accepts(sig, args) && sig.optionals ==>
            var imp := args[..sig.required] + [Vector(args[sig.required..])];
            Passed(Pack(sig, args)) == if sig.required <= 6 then imp else [Vector(imp)]
  {}

  // ---------------------------------------------------------------- keyword arguments

  /** Specifiers alternate keywords and default values. */
  function Keywords(specs: seq<Value>): nat { |specs| / 2 }

  /** The value that the leftmost use of a keyword gives it. */
  function Supplied(optionals: seq<Value>, keyword: Value): Option<Value> {
    if |optionals| < 2 then None
    else if optionals[0] == keyword then Some(optionals[1])
    else Supplied(optionals[2..], keyword)
  }

  /** The first specifier of a keyword, or `Keywords(specs)`. */
  function SpecifierOf(specs: seq<Value>, keyword: Value): (i: nat)
    ensures i <= Keywords(specs)
    ensures i < Keywords(specs) ==> specs[2 * i] == keyword
    ensures forall j | 0 <= j < i :: specs[2 * j] != keyword
  {
    if |specs| < 2 then 0
    else if specs[0] == keyword then 0
    else
      var k := SpecifierOf(specs[2..], keyword);
      assert forall j | 0 < j < k + 1 :: specs[2 * j] == specs[2..][2 * (j - 1)];
      1 + k
  }

  function Slot(specs: seq<Value>, optionals: seq<Value>, i: nat): Value
    requires i < Keywords(specs)
  {
    if SpecifierOf(specs, specs[2 * i]) == i && Supplied(optionals, specs[2 * i]).Some?
    then Supplied(optionals, specs[2 * i]).value
    else specs[2 * i + 1]
  }

  lemma {:induction false} SuppliedAt(optionals: seq<Value>, keyword: Value, p: nat)
    requires 2 * p + 1 < |optionals| && optionals[2 * p] == keyword
    requires forall q | 0 <= q < p :: optionals[2 * q] != keyword
    ensures Supplied(optionals, keyword) == Some(optionals[2 * p + 1])
  {
    if p > 0 {
      assert optionals[2 * 0] != keyword;
      forall q | 0 <= q < p - 1 ensures optionals[2..][2 * q] != keyword { assert optionals[2 * (q + 1)] != keyword; }
      SuppliedAt(optionals[2..], keyword, p - 1);
    }
  }

  lemma {:induction false} SuppliedNowhere(optionals: seq<Value>, keyword: Value)
    requires forall q | 0 <= 2 * q + 1 < |optionals| && 0 <= q :: optionals[2 * q] != keyword
    ensures Supplied(optionals, keyword) == None
  {
    if |optionals| >= 2 {
      assert optionals[2 * 0] != keyword;
      forall q | 0 <= 2 * q + 1 < |optionals[2..]| && 0 <= q ensures optionals[2..][2 * q] != keyword {
        assert optionals[2 * (q + 1)] != keyword;
      }
      SuppliedNowhere(optionals[2..], keyword);
    }
  }

  /** What the slot of a keyword that is specified once holds: the value after its leftmost use
      among the optionals, or its default if it is not used. */
  lemma SlotHolds(specs: seq<Value>, optionals: seq<Value>, i: nat, p: nat)
    requires i < Keywords(specs) && 2 * p <= |optionals|
    requires forall j | 0 <= j < i :: specs[2 * j] != specs[2 * i]
    requires forall q | 0 <= q < p :: optionals[2 * q] != specs[2 * i]
    ensures 2 * p + 1 < |optionals| && optionals[2 * p] == specs[2 * i] ==>
            Slot(specs, optionals, i) == optionals[2 * p + 1]
    ensures 2 * p + 1 >= |optionals| ==> Slot(specs, optionals, i) == specs[2 * i + 1]
  {
    if 2 * p + 1 < |optionals| && optionals[2 * p] == specs[2 * i] { SuppliedAt(optionals, specs[2 * i], p); }
    if 2 * p + 1 >= |optionals| { SuppliedNowhere(optionals, specs[2 * i]); }
  }

  /** One more keyword and value on the left changes one slot, or none. */
  lemma SlotsAfter(specs: seq<Value>, optionals: seq<Value>, keyword: Value, value: Value, i: nat)
    requires i < Keywords(specs)
    ensures Slot(specs, [keyword, value] + optionals, i) ==
              if SpecifierOf(specs, keyword) == i then value else Slot(specs, optionals, i)
  {
    assert ([keyword, value] + optionals)[2..] == optionals;
  }

  // ---------------------------------------------------------------- the thread's argument buffers

  datatype Call = Passing(values: seq<Value>) | CountError

  /** The part of a thread environment block that has to do with calls; `breaks` counts the
      calls of `primitive_break`. */
  class Teb {
    var callee: Id
    var nextMethods: Value
    var argumentCount: nat
    var breaks: nat
    const arguments: array<Value>
    const a: array<Value>
    const applyBuffer: array<Value>

    constructor ()
      ensures Valid() && breaks == 0 && fresh(arguments) && fresh(a) && fresh(applyBuffer)
    {
      callee, nextMethods, argumentCount, breaks := 0, Word(0), 0, 0;
      arguments := new Value[MAX_ARGUMENTS](_ => Word(0));
      a := new Value[MAX_ARGUMENTS](_ => Word(0));
      applyBuffer := new Value[MAX_ARGUMENTS](_ => Word(0));
    }

    ghost predicate Valid() {
      arguments.Length == MAX_ARGUMENTS && a.Length == MAX_ARGUMENTS && applyBuffer.Length == MAX_ARGUMENTS
    }

    method TransferVarargs(args: seq<Value>, buffer: array<Value>)
      requires |args| <= buffer.Length
      modifies buffer
      ensures buffer[..|args|] == args
    {
      for i := 0 to |args|
        invariant buffer[..i] == args[..i]
      {
        buffer[i] := args[i];
      }
    }

    /** `gf_xep_0` to `gf_xep_7`, `gf_xep`, `gf_optional_xep_0` to `gf_optional_xep_6` and
        `gf_optional_xep`, as they are installed for the signature; the values passed to the
        generic function's internal entry point. */
    method GfXep(sig: Signature, args: seq<Value>) returns (r: Call)
      requires Valid() && |args| <= MAX_ARGUMENTS
      modifies arguments, a
      ensures r == if Accepts(sig, args) then Passing(Passed(Pack(sig, args))) else CountError
      ensures r.CountError? <==> |args| < sig.required || (|args| > sig.required && !sig.optionals)
    {
      var n := |args|;
      if !sig.optionals {
        if n != sig.required { return CountError; }
        if n <= MAX_SPREAD { return Passing(args); }
        TransferVarargs(args, arguments);
        r := Passing([Vector(arguments[..sig.required])]);
      } else if sig.required < MAX_SPREAD {
        if n < sig.required { return CountError; }
        TransferVarargs(args, a);
        var rest := Vector(a[sig.required..n]);
        assert a[sig.required..n] == a[..n][sig.required..];
        a[sig.required] := rest;
        assert a[..sig.required + 1] == args[..sig.required] + [rest];
        r := Passing(a[..sig.required + 1]);
      } else {
        TransferVarargs(args, arguments);
        if n < sig.required { return CountError; }
        assert arguments[..sig.required] == arguments[..n][..sig.required];
        assert arguments[sig.required..n] == arguments[..n][sig.required..];
        r := Passing([Vector(arguments[..sig.required] + [Vector(arguments[sig.required..n])])]);
      }
    }

    /** `primitive_mep_apply` and `primitive_engine_node_apply`: a vector of actual arguments
        becomes a vector of implementation arguments. */
    method PackVector(sig: Signature, args: seq<Value>) returns (imp: seq<Value>)
      requires Accepts(sig, args)
      ensures imp == Pack(sig, args)
    {
      if sig.optionals {
        var newArguments := new Value[sig.required + 1](
          i requires 0 <= i < sig.required + 1 => if i < sig.required then args[i] else Word(0));
        newArguments[sig.required] := Vector(args[sig.required..]);
        imp := newArguments[..];
      } else {
        imp := args;
      }
    }

    /** `general_engine_node_spread_engine`: the actual arguments, for an engine node that
        reports an error about them. */
    method SpreadEngine(sig: Signature, passed: seq<Value>, ghost imp: seq<Value>) returns (v: seq<Value>)
      requires Valid() && WellPacked(sig, imp) && passed == Passed(imp)
      modifies arguments
      ensures v == Unpack(sig, imp)
    {
      var nreq, impargs := sig.required, ImpArgs(sig);
      if nreq != impargs {
        if impargs > MAX_SPREAD {
          assert passed[0] == Vector(imp);
          v := Spread(passed[0].elements, nreq);
        } else {
          TransferVarargs(passed, arguments);
          assert arguments[..impargs] == imp;
          v := Spread(arguments[..impargs], nreq);
        }
      } else if impargs > MAX_SPREAD {
        assert passed[0] == Vector(imp);
        v := passed[0].elements;
      } else {
        v := CopyOut(passed);
      }
    }

    /** `general_engine_node_n_engine`: the implementation arguments as a vector. */
    method GatherEngine(sig: Signature, passed: seq<Value>, ghost imp: seq<Value>) returns (v: seq<Value>)
      requires |imp| == ImpArgs(sig) && passed == Passed(imp)
      ensures v == imp
    {
      if ImpArgs(sig) > MAX_SPREAD {
        assert passed[0] == Vector(imp);
        v := passed[0].elements;
      } else {
        v := CopyOut(passed);
      }
    }

    method CopyOut(values: seq<Value>) returns (v: seq<Value>)
      ensures v == values
    {
      var svec := new Value[|values|];
      for i := 0 to |values|
        invariant svec[..i] == values[..i]
      {
        svec[i] := values[i];
      }
      v := svec[..];
    }

    method Spread(imp: seq<Value>, nreq: nat) returns (v: seq<Value>)
      requires |imp| == nreq + 1 && imp[nreq].Vector?
      ensures v == imp[..nreq] + imp[nreq].elements
    {
      var opts := imp[nreq].elements;
      var svec := new Value[nreq + |opts|];
      for i := 0 to nreq
        invariant svec[..i] == imp[..i]
      {
        svec[i] := imp[i];
      }
      for i := 0 to |opts|
        invariant svec[..nreq] == imp[..nreq] && svec[nreq..nreq + i] == opts[..i]
      {
        svec[nreq + i] := opts[i];
        assert svec[nreq..nreq + i + 1] == svec[nreq..nreq + i] + [opts[i]];
      }
      assert svec[..] == svec[..nreq] + svec[nreq..nreq + |opts|];
      v := svec[..];
    }

    /** `primitive_apply_using_buffer`: the last argument of an apply is a vector of the rest. */
    method ApplyUsingBuffer(args: seq<Value>) returns (v: seq<Value>)
      requires Valid() && args != [] && args[|args| - 1].Vector?
      requires |args| - 1 + |args[|args| - 1].elements| <= MAX_ARGUMENTS
      modifies applyBuffer
      ensures v == Unpack(Signature(|args| - 1, true), args)
    {
      var n := |args|;
      var optionals := args[n - 1].elements;
      for i := 0 to n - 1
        invariant applyBuffer[..i] == args[..i]
      {
        applyBuffer[i] := args[i];
      }
      for j := 0 to |optionals|
        invariant applyBuffer[..n - 1 + j] == args[..n - 1] + optionals[..j]
      {
        applyBuffer[n - 1 + j] := optionals[j];
      }
      v := applyBuffer[..n - 1 + |optionals|];
    }
  }

  // ---------------------------------------------------------------- keyword processing

  predicate KeywordsFilled(newArguments: seq<Value>, nreq: nat, specs: seq<Value>, optionals: seq<Value>)
    requires nreq + 1 + Keywords(specs) <= |newArguments|
  {
    forall i | 0 <= i < Keywords(specs) :: newArguments[nreq + 1 + i] == Slot(specs, optionals, i)
  }

  method DefaultArguments(nreq: nat, required: seq<Value>, specs: seq<Value>, offset: nat, newArguments: array<Value>)
    requires nreq <= |required| && nreq <= offset && offset + Keywords(specs) <= newArguments.Length
    modifies newArguments
    ensures newArguments[..nreq] == required[..nreq]
    ensures forall i | 0 <= i < Keywords(specs) :: newArguments[offset + i] == specs[2 * i + 1]
    ensures forall k | nreq <= k < newArguments.Length && !(offset <= k < offset + Keywords(specs)) ::
              newArguments[k] == old(newArguments[k])
  {
    for i := 0 to nreq
      invariant newArguments[..i] == required[..i]
      invariant forall k | i <= k < newArguments.Length :: newArguments[k] == old(newArguments[k])
    {
      newArguments[i] := required[i];
    }
    var i, j := 0, 1;
    while i < Keywords(specs)
      invariant 0 <= i <= Keywords(specs) && j == 2 * i + 1
      invariant newArguments[..nreq] == required[..nreq]
      invariant forall l | 0 <= l < i :: newArguments[offset + l] == specs[2 * l + 1]
      invariant forall k | nreq <= k < newArguments.Length && !(offset <= k < offset + i) ::
                newArguments[k] == old(newArguments[k])
    {
      newArguments[i + offset] := specs[j];
      i, j := i + 1, j + 2;
    }
  }

  /** Stores a value in the slot of the first specifier of its keyword, if there is one. */
  method StoreKeyword(nreq: nat, specs: seq<Value>, keyword: Value, value: Value, newArguments: array<Value>)
    requires nreq + 1 + Keywords(specs) <= newArguments.Length
    modifies newArguments
    ensures var s := SpecifierOf(specs, keyword);
            forall k | 0 <= k < newArguments.Length ::
              newArguments[k] == if k == nreq + 1 + s && s < Keywords(specs) then value else old(newArguments[k])
  {
    var j, k := 0, nreq + 1;
    ghost var s := SpecifierOf(specs, keyword);
    while j < 2 * Keywords(specs)
      invariant k >= nreq + 1 && j == 2 * (k - nreq - 1) && j <= 2 * Keywords(specs)
      invariant k - nreq - 1 <= s
      invariant newArguments[..] == old(newArguments[..])
    {
      if keyword == specs[j] {
        assert s == k - nreq - 1;
        newArguments[k] := value;
        return;
      }
      k, j := k + 1, j + 2;
    }
  }

  method ProcessKeywordParameters(nreq: nat, specs: seq<Value>, optionals: seq<Value>, newArguments: array<Value>)
    requires nreq + 1 + Keywords(specs) <= newArguments.Length && |optionals| % 2 == 0
    requires forall i | 0 <= i < Keywords(specs) :: newArguments[nreq + 1 + i] == specs[2 * i + 1]
    modifies newArguments
    ensures KeywordsFilled(newArguments[..], nreq, specs, optionals)
    ensures forall k | 0 <= k < newArguments.Length && !(nreq + 1 <= k < nreq + 1 + Keywords(specs)) ::
              newArguments[k] == old(newArguments[k])
  {
    var i := |optionals| - 1;
    while i >= 0
      invariant -1 <= i < |optionals| && i % 2 == 1
      invariant KeywordsFilled(newArguments[..], nreq, specs, optionals[i + 1..])
      invariant forall k | 0 <= k < newArguments.Length && !(nreq + 1 <= k < nreq + 1 + Keywords(specs)) ::
                  newArguments[k] == old(newArguments[k])
    {
      var value, keyword := optionals[i], optionals[i - 1];
      ghost var before := optionals[i + 1..];
      StoreKeyword(nreq, specs, keyword, value, newArguments);
      i := i - 2;
      assert optionals[i + 1..] == [keyword, value] + before;
      forall l: nat | l < Keywords(specs)
        ensures Slot(specs, [keyword, value] + before, l) == newArguments[..][nreq + 1 + l]
      {
        SlotsAfter(specs, before, keyword, value, l);
      }
    }
    assert optionals[0..] == optionals;
  }

  method ProcessKeywordCallInto(newArguments: array<Value>, nreq: nat, required: seq<Value>, specs: seq<Value>,
                                optionals: seq<Value>)
      returns (count: nat)
    requires nreq <= |required| && nreq + 1 + Keywords(specs) <= newArguments.Length && |optionals| % 2 == 0
    modifies newArguments
    ensures count == nreq + 1 + Keywords(specs)
    ensures newArguments[..nreq] == required[..nreq] && newArguments[nreq] == Vector(optionals)
    ensures KeywordsFilled(newArguments[..], nreq, specs, optionals)
    ensures newArguments[count..] == old(newArguments[count..])
  {
    DefaultArguments(nreq, required, specs, nreq + 1, newArguments);
    ProcessKeywordParameters(nreq, specs, optionals, newArguments);
    newArguments[nreq] := Vector(optionals);
    count := nreq + Keywords(specs) + 1;
  }
}
