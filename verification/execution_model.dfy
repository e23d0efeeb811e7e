/**
 * The Python helpers that connect and run VTK pipelines with `>>`
 * (vtkmodules.util.execution_model): `select_ports` argument parsing, the
 * composition rules of `Pipeline`, and the parts of `_call` that set and
 * restore the first algorithm's input connections and shape its output.
 * VTK objects are reduced to what these helpers ask of them.
 */
module ExecutionModel {
  import opened Wrappers

  /** The Python exceptions these helpers raise. */
  datatype PyError = ValueError | TypeError | AttributeError

  /** An argument of `select_ports`: an algorithm, an integer, `None`, or any other Python value with its truth value. */
  datatype Value = AlgorithmValue(id: nat) | IntValue(i: int) | NoneValue | OtherValue(truthy: bool)

  /** Python truthiness of a value: objects are true, 0 and `None` are false. */
  predicate Truthy(v: Value) {
    match v
    case AlgorithmValue(_) => true
    case IntValue(i) => i != 0
    case NoneValue => false
    case OtherValue(t) => t
  }

  /** A port argument as stored: a false value (missing, `None`, 0) becomes 0. */
  function PortOrZero(v: Value): (r: Value)
    ensures Truthy(v) ==> r == v
    ensures !Truthy(v) ==> r == IntValue(0)
  {
    if Truthy(v) then v else IntValue(0)
  }

  /** The index of the first algorithm argument, or the argument count when there is none. */
  function FirstAlgorithm(args: seq<Value>): (r: nat)
    ensures r <= |args|
    ensures r < |args| ==> args[r].AlgorithmValue?
    ensures forall m :: 0 <= m < r ==> !args[m].AlgorithmValue?
  {
    if |args| == 0 then 0
    else if args[0].AlgorithmValue? then 0
    else 1 + FirstAlgorithm(args[1..])
  }

  /** A parsed `select_ports`: the algorithm (unset when none was passed) and the two ports. */
  datatype SelectPorts = SelectPorts(algorithm: Option<Value>, inputPort: Value, outputPort: Value)

  /**
   * `select_ports(*args)`: 2 or 3 arguments, else ValueError.  The
   * algorithm is the last algorithm argument; the input port is the
   * argument just before the first algorithm; the output port is the last
   * non-algorithm argument after it; a false port becomes 0.
   */
  method NewSelectPorts(args: seq<Value>) returns (r: Result<SelectPorts, PyError>)
    ensures r.Failure? <==> |args| < 2 || |args| > 3
    ensures r.Failure? ==> r.error == ValueError
    ensures r.Success? ==> r.value.inputPort == PortOrZero(if FirstAlgorithm(args) > 0 then args[FirstAlgorithm(args) - 1] else NoneValue)
    ensures r.Success? ==> (r.value.algorithm.None? <==> FirstAlgorithm(args) == |args|)
    ensures r.Success? && r.value.algorithm.Some? ==>
      exists j :: FirstAlgorithm(args) <= j < |args| && args[j].AlgorithmValue? && r.value.algorithm == Some(args[j]) &&
        forall m :: j < m < |args| ==> !args[m].AlgorithmValue?
    ensures r.Success? && (forall m :: FirstAlgorithm(args) < m < |args| ==> args[m].AlgorithmValue?) ==>
      r.value.outputPort == IntValue(0)
    ensures r.Success? && (exists m :: FirstAlgorithm(args) < m < |args| && !args[m].AlgorithmValue?) ==>
      exists j :: FirstAlgorithm(args) < j < |args| && !args[j].AlgorithmValue? && r.value.outputPort == PortOrZero(args[j]) &&
        forall m :: j < m < |args| ==> args[m].AlgorithmValue?
  {
    if |args| < 2 || |args| > 3 {
      return Failure(ValueError);
    }
    ghost var f := FirstAlgorithm(args);
    var algorithm: Option<Value> := None;
    var input := NoneValue;
    var output := NoneValue;
    var beforeAlg := true;
    ghost var algIdx: int := -1;
    ghost var outIdx: int := -1;
    for i := 0 to |args|
      invariant beforeAlg <==> i <= f
      invariant algorithm.None? <==> algIdx == -1
      invariant algIdx == -1 ==> i <= f
      invariant algIdx != -1 ==> f <= algIdx < i && args[algIdx].AlgorithmValue? && algorithm == Some(args[algIdx])
      invariant algIdx != -1 ==> forall m :: algIdx < m < i ==> !args[m].AlgorithmValue?
      invariant input == (if 0 < i <= f then args[i - 1] else if 0 < f < i then args[f - 1] else NoneValue)
      invariant outIdx == -1 ==> output == NoneValue && forall m :: f < m < i ==> args[m].AlgorithmValue?
      invariant outIdx != -1 ==> f < outIdx < i && !args[outIdx].AlgorithmValue? && output == args[outIdx]
      invariant outIdx != -1 ==> forall m :: outIdx < m < i ==> args[m].AlgorithmValue?
    {
      if args[i].AlgorithmValue? {
        algorithm := Some(args[i]);
        algIdx := i;
        beforeAlg := false;
      } else if beforeAlg {
        input := args[i];
      } else {
        output := args[i];
        outIdx := i;
      }
    }
    return Success(SelectPorts(algorithm, PortOrZero(input), PortOrZero(output)));
  }

  /** `select_ports(1, filter)`: input port 1 on the filter, output port 0. */
  method SelectInputPortExample() returns (r: Result<SelectPorts, PyError>)
    ensures r == Success(SelectPorts(Some(AlgorithmValue(7)), IntValue(1), IntValue(0)))
  {
    var args := [IntValue(1), AlgorithmValue(7)];
    assert FirstAlgorithm(args) == 1;
    r := NewSelectPorts(args);
  }

  /** `select_ports(source, 1)`: input port 0, output port 1 of the source. */
  method SelectOutputPortExample() returns (r: Result<SelectPorts, PyError>)
    ensures r == Success(SelectPorts(Some(AlgorithmValue(3)), IntValue(0), IntValue(1)))
  {
    var args := [AlgorithmValue(3), IntValue(1)];
    assert FirstAlgorithm(args) == 0 && !args[1].AlgorithmValue?;
    r := NewSelectPorts(args);
  }

  /**
   * An end of a pipeline or connection: an algorithm, the trivial producer
   * made for a data object, or a trivial producer given `None`.
   */
  datatype Endpoint = Algo(id: nat) | Producer(data: nat) | EmptyProducer

  /** An operand of `>>`: a pipeline (with its first and last algorithms, unless they were never set) or another object. */
  datatype Obj =
    | Pipe(ends: Option<(Endpoint, Endpoint)>)
    | Thing(id: nat, hasSetInputConnection: bool, isDataObject: bool)

  datatype OperandType = PipelineType | AlgorithmType | DataType | UnknownType

  /** `_determine_type`: pipeline first, then anything with `SetInputConnection`, then data objects, else unknown. */
  function DetermineType(o: Obj): (t: OperandType)
    ensures t == PipelineType <==> o.Pipe?
    ensures t == AlgorithmType <==> o.Thing? && o.hasSetInputConnection
    ensures t == DataType <==> o.Thing? && !o.hasSetInputConnection && o.isDataObject
  {
    if o.Pipe? then PipelineType
    else if o.hasSetInputConnection then AlgorithmType
    else if o.isDataObject then DataType
    else UnknownType
  }

  /** `target.SetInputConnection(source.GetOutputPort())`. */
  datatype Connection = Connection(target: Endpoint, source: Endpoint)

  /** The pipeline `>>` builds and the connection it makes. */
  datatype Composed = Composed(ends: Option<(Endpoint, Endpoint)>, connections: seq<Connection>)

  /** The end `>>` connects from on the left: an algorithm, a pipeline's last algorithm, or a producer for data. */
  function Exit(o: Obj): Option<Endpoint> {
    match o
    case Pipe(ends) => if ends.None? then None else Some(ends.value.1)
    case Thing(id, alg, _) => Some(if alg then Algo(id) else Producer(id))
  }

  /** The end the left operand contributes as `first`. */
  function Head(o: Obj): Option<Endpoint> {
    match o
    case Pipe(ends) => if ends.None? then None else Some(ends.value.0)
    case Thing(id, alg, _) => Some(if alg then Algo(id) else Producer(id))
  }

  /** The end `>>` connects into on the right: an algorithm, or a pipeline's first algorithm. */
  function Entry(o: Obj): Option<Endpoint> {
    match o
    case Pipe(ends) => if ends.None? then None else Some(ends.value.0)
    case Thing(id, _, _) => Some(Algo(id))
  }

  /** The end the right operand contributes as `last`. */
  function Tail(o: Obj): Option<Endpoint> {
    match o
    case Pipe(ends) => if ends.None? then None else Some(ends.value.1)
    case Thing(id, _, _) => Some(Algo(id))
  }

  /**
   * `Pipeline(lhs, rhs)`, the result of `lhs >> rhs`: an unknown operand is
   * a TypeError; data on the right matches no rule and leaves `first` and
   * `last` unset; otherwise the right operand's entry is connected to the
   * left operand's exit, and the pipeline runs from the left operand's
   * first algorithm (a fresh producer for data) to the right operand's last.
   * Reading `first` or `last` of a pipeline that never set them is an
   * AttributeError.
   */
  function Compose(lhs: Obj, rhs: Obj): (r: Result<Composed, PyError>)
    ensures DetermineType(lhs) == UnknownType || DetermineType(rhs) == UnknownType <==> r == Failure(TypeError)
    ensures r.Success? && DetermineType(rhs) == DataType ==> r.value == Composed(None, [])
    ensures r.Success? && DetermineType(rhs) != DataType ==>
      && Head(lhs).Some? && Exit(lhs).Some? && Entry(rhs).Some? && Tail(rhs).Some?
      && r.value.ends == Some((Head(lhs).value, Tail(rhs).value))
      && r.value.connections == [Connection(Entry(rhs).value, Exit(lhs).value)]
    ensures r.Failure? && r.error == AttributeError <==>
      && DetermineType(lhs) != UnknownType && DetermineType(rhs) != UnknownType && DetermineType(rhs) != DataType
      && (lhs == Pipe(None) || rhs == Pipe(None))
  {
    var lt := DetermineType(lhs);
    var rt := DetermineType(rhs);
    if lt == UnknownType || rt == UnknownType then Failure(TypeError)
    else if rt == DataType then Success(Composed(None, []))
    else if lhs == Pipe(None) || rhs == Pipe(None) then Failure(AttributeError)
    else Success(Composed(Some((Head(lhs).value, Tail(rhs).value)), [Connection(Entry(rhs).value, Exit(lhs).value)]))
  }

  /** An algorithm object. */
  function Alg(id: nat): Obj {
    Thing(id, true, false)
  }

  /** A pipeline object holding the outcome of an earlier `>>`. */
  function AsPipe(c: Composed): Obj {
    Pipe(c.ends)
  }

  /** The four `first`/`last` rules: A>>B, P>>B, A>>P and P>>Q. */
  lemma ComposeEnds(a: nat, b: nat, p: (Endpoint, Endpoint), q: (Endpoint, Endpoint))
    ensures Compose(Alg(a), Alg(b)).value.ends == Some((Algo(a), Algo(b)))
    ensures Compose(Pipe(Some(p)), Alg(b)).value.ends == Some((p.0, Algo(b)))
    ensures Compose(Alg(a), Pipe(Some(q))).value.ends == Some((Algo(a), q.1))
    ensures Compose(Pipe(Some(p)), Pipe(Some(q))).value.ends == Some((p.0, q.1))
  {
  }

  /** Data on the right leaves a pipeline whose further use with `>>` is an AttributeError. */
  lemma DataOnRightLeavesUnusablePipeline(a: nat, d: nat, c: nat)
    ensures Compose(Alg(a), Thing(d, false, true)) == Success(Composed(None, []))
    ensures Compose(AsPipe(Compose(Alg(a), Thing(d, false, true)).value), Alg(c)) == Failure(AttributeError)
  {
  }

  /** Grouping does not matter: (A >> B) >> C and A >> (B >> C) have the same ends and make the same connections. */
  lemma ComposeAssociates(a: nat, b: nat, c: nat)
    ensures
      var left1 := Compose(Alg(a), Alg(b)).value;
      var left := Compose(AsPipe(left1), Alg(c)).value;
      var right1 := Compose(Alg(b), Alg(c)).value;
      var right := Compose(Alg(a), AsPipe(right1)).value;
      && left.ends == right.ends == Some((Algo(a), Algo(c)))
      && multiset(left1.connections + left.connections) == multiset(right1.connections + right.connections)
  {
  }

  /** `algs[0] >> algs[1] >> ... >> algs[n-1]`, evaluated left to right, with every connection made on the way. */
  function Chain(algs: seq<nat>): (r: Result<Composed, PyError>)
    requires |algs| >= 2
    decreases |algs|
  {
    if |algs| == 2 then Compose(Alg(algs[0]), Alg(algs[1]))
    else
      match Chain(algs[..|algs| - 1])
      case Failure(e) => Failure(e)
      case Success(p) =>
        match Compose(AsPipe(p), Alg(algs[|algs| - 1]))
        case Failure(e) => Failure(e)
        case Success(q) => Success(Composed(q.ends, p.connections + q.connections))
  }

  /** A chain of algorithms runs from the first to the last, each fed by the one before it. */
  lemma {:induction false} ChainConnectsNeighbours(algs: seq<nat>)
    requires |algs| >= 2
    ensures Chain(algs).Success?
    ensures Chain(algs).value.ends == Some((Algo(algs[0]), Algo(algs[|algs| - 1])))
    ensures |Chain(algs).value.connections| == |algs| - 1
    ensures forall i :: 0 <= i < |algs| - 1 ==>
      Chain(algs).value.connections[i] == Connection(Algo(algs[i + 1]), Algo(algs[i]))
  {
    if |algs| > 2 {
      var init := algs[..|algs| - 1];
      ChainConnectsNeighbours(init);
      assert init[0] == algs[0];
    }
  }

  /** An algorithm as `_call` sees it: its input ports, whether they repeat, and the connections on each port. */
  datatype Algorithm = Algorithm(numInputPorts: nat, repeatable: bool, inputs: map<int, seq<Endpoint>>)

  /** The connections on one port. */
  function Connections(a: Algorithm, port: int): seq<Endpoint> {
    if port in a.inputs then a.inputs[port] else []
  }

  /** `RemoveAllInputConnections(port)`. */
  function RemoveAll(a: Algorithm, port: int): (r: Algorithm)
    ensures Connections(r, port) == []
    ensures forall p :: p != port ==> Connections(r, p) == Connections(a, p)
    ensures r.numInputPorts == a.numInputPorts && r.repeatable == a.repeatable
  {
    a.(inputs := a.inputs[port := []])
  }

  /**
   * `AddInputConnection(port, e)` for each `e` of `es`, in order: the
   * connections are appended to that port and the other ports are left alone.
   */
  function AddAll(a: Algorithm, port: int, es: seq<Endpoint>): (r: Algorithm)
    ensures Connections(r, port) == Connections(a, port) + es
    ensures forall p :: p != port ==> Connections(r, p) == Connections(a, p)
    ensures r.numInputPorts == a.numInputPorts && r.repeatable == a.repeatable
    decreases |es|
  {
    if es == [] then a
    else
      var a1 := a.(inputs := a.inputs[port := Connections(a, port) + [es[0]]]);
      assert Connections(a, port) + [es[0]] + es[1..] == Connections(a, port) + es;
      AddAll(a1, port, es[1..])
  }

  /**
   * The connections on `port` set to `during` for the update, then all
   * removed and `original` added back one by one.
   */
  function Reconnect(a: Algorithm, port: int, during: seq<Endpoint>, original: seq<Endpoint>): (r: Algorithm)
    ensures Connections(r, port) == original
    ensures forall p :: p != port ==> Connections(r, p) == Connections(a, p)
    ensures r.numInputPorts == a.numInputPorts
  {
    var cleared := RemoveAll(a.(inputs := a.inputs[port := during]), port);
    AddAll(cleared, port, original)
  }

  /** The input `_call` is given: nothing, one data object, or a sequence of them. */
  datatype Input = NoInput | One(data: nat) | Many(items: seq<nat>)

  predicate InputTruthy(inp: Input) {
    match inp
    case NoInput => false
    case One(_) => true
    case Many(items) => |items| > 0
  }

  /** What `_call` returns: a single output, or a tuple of them. */
  datatype Output = Single(obj: nat) | Tuple(objs: seq<nat>)

  /** What a `_call` does: the connections the update runs with, the algorithm afterwards, and the result. */
  datatype CallOutcome = CallOutcome(during: seq<Endpoint>, after: Algorithm, result: Output)

  /** The connections the update runs with on `port`. */
  function ConnectionsDuring(first: Algorithm, port: int, inp: Input): (r: seq<Endpoint>)
    ensures first.numInputPorts == 0 ==> r == Connections(first, port)
    ensures first.numInputPorts > 0 && inp.Many? && first.repeatable ==>
      |r| == |inp.items| && forall i :: 0 <= i < |r| ==> r[i] == Producer(inp.items[i])
    ensures first.numInputPorts > 0 && inp.Many? && !first.repeatable ==> r == Connections(first, port)
    ensures first.numInputPorts > 0 && inp.One? ==> r == [Producer(inp.data)]
    ensures first.numInputPorts > 0 && inp.NoInput? ==> r == [EmptyProducer]
  {
    if first.numInputPorts == 0 then Connections(first, port)
    else match inp
      case Many(items) =>
        if first.repeatable then seq(|items|, i requires 0 <= i < |items| => Producer(items[i]))
        else Connections(first, port)
      case One(d) => [Producer(d)]
      case NoInput => [EmptyProducer]
  }

  /**
   * `_call(first, last, inp, port)`: an input for an algorithm without input
   * ports is a ValueError.  Otherwise the update runs with the input
   * connected (a producer per item for a repeatable port, the input unchanged
   * for a sequence on a single port, else one producer); afterwards the
   * original connections are restored in order; the result is the one output
   * unwrapped, or a tuple of all outputs.
   */
  function Call(first: Algorithm, port: int, inp: Input, outputs: seq<nat>): (r: Result<CallOutcome, PyError>)
    ensures r.Failure? <==> InputTruthy(inp) && first.numInputPorts == 0
    ensures r.Failure? ==> r.error == ValueError
    ensures r.Success? ==> forall p :: Connections(r.value.after, p) == Connections(first, p)
    ensures r.Success? ==> r.value.during == ConnectionsDuring(first, port, inp)
    ensures r.Success? ==> r.value.after.numInputPorts == first.numInputPorts
    ensures r.Success? ==> (r.value.result.Single? <==> |outputs| == 1)
    ensures r.Success? && |outputs| == 1 ==> r.value.result == Single(outputs[0])
    ensures r.Success? && |outputs| != 1 ==> r.value.result == Tuple(outputs)
  {
    if InputTruthy(inp) && first.numInputPorts == 0 then Failure(ValueError)
    else
      var original := Connections(first, port);
      var during := ConnectionsDuring(first, port, inp);
      var after := if first.numInputPorts == 0 then first else Reconnect(first, port, during, original);
      Success(CallOutcome(during, after, if |outputs| == 1 then Single(outputs[0]) else Tuple(outputs)))
  }
}
