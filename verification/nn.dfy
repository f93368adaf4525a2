/**
  The network of nn.py: a `Neuron` owns its weights and bias, a `Layer` owns
  its neurons, an `MLP` owns its layers, and `parameters()` flattens them.

  Every weight and bias is a Value constructed with `Value(random.uniform(-1, 1))`.
  The random numbers are a parameter: `draw(i)` is the result of the i-th call,
  and a constructor that starts at draw `k` uses draws `k`, `k + 1`, ... in the
  order Python makes the calls. The Values live on the heap of the `Engine`
  module, so a parameter is a reference to the very Value the constructor made.
 */
module NN {
  import opened Engine
  import opened Seqs

  /** The successive results of `random.uniform(-1, 1)`. */
  type Draws = nat -> real

  datatype Neuron = Neuron(weights: seq<Ref>, bias: Ref)

  datatype Layer = Layer(neurons: seq<Neuron>)

  datatype MLP = MLP(layers: seq<Layer>)

  /** `len(range(n))`: a negative count builds nothing. */
  function Count(n: int): nat
  {
    if n < 0 then 0 else n
  }

  /** The Values in the slots `h'` adds to `h` hold draws `k`, `k + 1`, ..., in slot order. */
  ghost predicate Drawn(h: Heap, h': Heap, draw: Draws, k: nat)
  {
    forall i :: |h| <= i < |h'| ==> h'[i].data == draw(k + (i - |h|))
  }

  /** Two constructions in a row, the second starting at the draw where the first stopped. */
  lemma DrawnTransitive(h: Heap, h1: Heap, h2: Heap, draw: Draws, k: nat)
    requires Extends(h, h1) && Extends(h1, h2)
    requires Drawn(h, h1, draw, k) && Drawn(h1, h2, draw, k + (|h1| - |h|))
    ensures Extends(h, h2) && Drawn(h, h2, draw, k)
  {
    ExtendsTransitive(h, h1, h2);
    forall i | |h| <= i < |h1|
      ensures h2[i].data == draw(k + (i - |h|))
    {
      ExtendsKeeps(h1, h2, i);
    }
  }

  /** `[Value(random.uniform(-1, 1)) for _ in range(n)]`: `n` fresh Values, in construction order. */
  function NewValues(h: Heap, n: nat, draw: Draws, k: nat): (res: (Heap, seq<Ref>))
    ensures Extends(h, res.0) && |res.0| == |h| + n
    ensures res.1 == Range(|h|, |res.0|)
    ensures Drawn(h, res.0, draw, k)
    decreases n
  {
    if n == 0 then (h, [])
    else
      var (h1, rs) := NewValues(h, n - 1, draw, k);
      var (h2, r) := New(h1, draw(k + (n - 1)));
      DrawnTransitive(h, h1, h2, draw, k);
      RangeSplit(|h|, |h1|, |h2|);
      (h2, rs + [r])
  }

  /** `Neuron.parameters()`: the weights, then the bias. */
  function NeuronParameters(n: Neuron): (p: seq<Ref>)
    ensures |p| == |n.weights| + 1
    ensures p[..|n.weights|] == n.weights
    ensures p[|p| - 1] == n.bias
  {
    n.weights + [n.bias]
  }

  /** `Neuron(nin)`: `nin` fresh weight Values, then one fresh bias Value. */
  function NewNeuron(h: Heap, nin: int, draw: Draws, k: nat): (res: (Heap, Neuron))
    ensures Extends(h, res.0) && |res.0| == |h| + Count(nin) + 1
    ensures |res.1.weights| == Count(nin)
    ensures NeuronParameters(res.1) == Range(|h|, |res.0|)
    ensures Drawn(h, res.0, draw, k)
  {
    var (h1, ws) := NewValues(h, Count(nin), draw, k);
    var (h2, b) := New(h1, draw(k + Count(nin)));
    DrawnTransitive(h, h1, h2, draw, k);
    RangeSplit(|h|, |h1|, |h2|);
    (h2, Neuron(ws, b))
  }

  /** The parameter list of each neuron, in neuron order. */
  function NeuronParameterLists(ns: seq<Neuron>): (r: seq<seq<Ref>>)
    ensures |r| == |ns|
    ensures forall j :: 0 <= j < |ns| ==> r[j] == NeuronParameters(ns[j])
  {
    seq(|ns|, j requires 0 <= j < |ns| => NeuronParameters(ns[j]))
  }

  /** `Layer.parameters()`: each neuron's parameters extended onto one list, neuron by neuron,
      so it has one entry per weight and one per bias of every neuron. */
  function LayerParameters(l: Layer): (r: seq<Ref>)
    ensures |r| == Sum(Lengths(NeuronParameterLists(l.neurons)))
  {
    ConcatLength(NeuronParameterLists(l.neurons));
    Concat(NeuronParameterLists(l.neurons))
  }

  /** Every neuron of `ns` takes `nin` inputs. */
  ghost predicate AllTake(ns: seq<Neuron>, nin: int)
  {
    forall j :: 0 <= j < |ns| ==> |ns[j].weights| == Count(nin)
  }

  /** Appending a neuron of `nin` inputs keeps every neuron taking `nin` inputs. */
  lemma AllTakeSnoc(ns: seq<Neuron>, n: Neuron, nin: int)
    requires AllTake(ns, nin) && |n.weights| == Count(nin)
    ensures AllTake(ns + [n], nin)
  {
  }

  /** `[Neuron(nin) for _ in range(count)]`: `count` neurons, built one after another. */
  function NewNeurons(h: Heap, nin: int, count: nat, draw: Draws, k: nat): (res: (Heap, seq<Neuron>))
    ensures Extends(h, res.0) && |res.0| == |h| + count * (Count(nin) + 1)
    ensures |res.1| == count && AllTake(res.1, nin)
    ensures Concat(NeuronParameterLists(res.1)) == Range(|h|, |res.0|)
    ensures Drawn(h, res.0, draw, k)
    decreases count
  {
    if count == 0 then (h, [])
    else
      var (h1, ns) := NewNeurons(h, nin, count - 1, draw, k);
      var (h2, n) := NewNeuron(h1, nin, draw, k + (|h1| - |h|));
      DrawnTransitive(h, h1, h2, draw, k);
      NeuronSlots(count, Count(nin));
      AllTakeSnoc(ns, n, nin);
      NeuronParameterListsSnoc(ns, n);
      ConcatRangeSnoc(NeuronParameterLists(ns), NeuronParameters(n), |h|, |h1|, |h2|);
      (h2, ns + [n])
  }

  /** Appending a neuron appends its parameter list. */
  lemma NeuronParameterListsSnoc(ns: seq<Neuron>, n: Neuron)
    ensures NeuronParameterLists(ns + [n]) == NeuronParameterLists(ns) + [NeuronParameters(n)]
  {
  }

  /** One neuron more costs `w + 1` more slots. */
  lemma NeuronSlots(count: nat, w: nat)
    requires count >= 1
    ensures (count - 1) * (w + 1) + (w + 1) == count * (w + 1)
  {
  }

  /** The layer has `nout` neurons, each taking `nin` inputs. */
  ghost predicate LayerShaped(l: Layer, nin: int, nout: int)
  {
    && |l.neurons| == Count(nout)
    && AllTake(l.neurons, nin)
  }

  /** `Layer(nin, nout)`: `nout` neurons of `nin` inputs each; its parameters are exactly
      the Values it constructed, in construction order, `Count(nout) * (Count(nin) + 1)` of them. */
  function NewLayer(h: Heap, nin: int, nout: int, draw: Draws, k: nat): (res: (Heap, Layer))
    ensures Extends(h, res.0)
    ensures LayerShaped(res.1, nin, nout)
    ensures LayerParameters(res.1) == Range(|h|, |res.0|)
    ensures |LayerParameters(res.1)| == Count(nout) * (Count(nin) + 1)
    ensures Drawn(h, res.0, draw, k)
  {
    var (h1, ns) := NewNeurons(h, nin, Count(nout), draw, k);
    (h1, Layer(ns))
  }

  /** `[nin] + nouts`: the width of the network before and after each layer. */
  function Sizes(nin: int, nouts: seq<int>): (s: seq<int>)
    ensures |s| == |nouts| + 1 && s[0] == nin && s[1..] == nouts
  {
    [nin] + nouts
  }

  /** How many parameters each layer of a network of these sizes has:
      layer `i` has `sizes[i + 1]` neurons of `sizes[i] + 1` parameters each. */
  function ParameterCounts(sizes: seq<int>): (r: seq<nat>)
    requires |sizes| >= 1
    ensures |r| == |sizes| - 1
    ensures forall i :: 0 <= i < |r| ==> r[i] == Count(sizes[i + 1]) * (Count(sizes[i]) + 1)
  {
    seq(|sizes| - 1, i requires 0 <= i < |sizes| - 1 => Count(sizes[i + 1]) * (Count(sizes[i]) + 1))
  }

  /** The parameter list of each layer, in layer order. */
  function LayerParameterLists(ls: seq<Layer>): (r: seq<seq<Ref>>)
    ensures |r| == |ls|
    ensures forall i :: 0 <= i < |ls| ==> r[i] == LayerParameters(ls[i])
  {
    seq(|ls|, i requires 0 <= i < |ls| => LayerParameters(ls[i]))
  }

  /** `MLP.parameters()`: each layer's parameters extended onto one list, layer by layer,
      so it has as many entries as all the layers' parameter lists together. */
  function MLPParameters(m: MLP): (r: seq<Ref>)
    ensures |r| == Sum(Lengths(LayerParameterLists(m.layers)))
  {
    ConcatLength(LayerParameterLists(m.layers));
    Concat(LayerParameterLists(m.layers))
  }

  /** Layer `i` has `sizes[i + 1]` neurons, each taking `sizes[i]` inputs. */
  ghost predicate LayersShaped(ls: seq<Layer>, sizes: seq<int>)
  {
    && |sizes| == |ls| + 1
    && forall i :: 0 <= i < |ls| ==> LayerShaped(ls[i], sizes[i], sizes[i + 1])
  }

  /** A layer shaped by the last two sizes extends a stack shaped by the sizes before. */
  lemma LayersShapedSnoc(ls: seq<Layer>, l: Layer, sizes: seq<int>)
    requires |sizes| >= 2
    requires LayersShaped(ls, sizes[..|sizes| - 1])
    requires LayerShaped(l, sizes[|sizes| - 2], sizes[|sizes| - 1])
    ensures LayersShaped(ls + [l], sizes)
  {
    var front := sizes[..|sizes| - 1];
    forall i | 0 <= i < |ls| + 1
      ensures LayerShaped((ls + [l])[i], sizes[i], sizes[i + 1])
    {
      if i < |ls| {
        assert (ls + [l])[i] == ls[i] && front[i] == sizes[i] && front[i + 1] == sizes[i + 1];
      }
    }
  }

  /** `[Layer(sizes[i], sizes[i + 1]) for i in range(len(sizes) - 1)]`, built in index order. */
  function NewLayers(h: Heap, sizes: seq<int>, draw: Draws, k: nat): (res: (Heap, seq<Layer>))
    requires |sizes| >= 1
    ensures Extends(h, res.0) && |res.0| == |h| + Sum(ParameterCounts(sizes))
    ensures LayersShaped(res.1, sizes)
    ensures Concat(LayerParameterLists(res.1)) == Range(|h|, |res.0|)
    ensures Drawn(h, res.0, draw, k)
    decreases |sizes|
  {
    if |sizes| == 1 then (h, [])
    else
      var (h1, ls) := NewLayers(h, sizes[..|sizes| - 1], draw, k);
      var (h2, l) := NewLayer(h1, sizes[|sizes| - 2], sizes[|sizes| - 1], draw, k + (|h1| - |h|));
      DrawnTransitive(h, h1, h2, draw, k);
      ParameterCountsSnoc(sizes);
      LayersShapedSnoc(ls, l, sizes);
      LayerParameterListsSnoc(ls, l);
      ConcatRangeSnoc(LayerParameterLists(ls), LayerParameters(l), |h|, |h1|, |h2|);
      (h2, ls + [l])
  }

  /** Appending a layer appends its parameter list. */
  lemma LayerParameterListsSnoc(ls: seq<Layer>, l: Layer)
    ensures LayerParameterLists(ls + [l]) == LayerParameterLists(ls) + [LayerParameters(l)]
  {
  }

  /** One size more adds the parameters of one layer more. */
  lemma ParameterCountsSnoc(sizes: seq<int>)
    requires |sizes| >= 2
    ensures Sum(ParameterCounts(sizes)) ==
      Sum(ParameterCounts(sizes[..|sizes| - 1])) + Count(sizes[|sizes| - 1]) * (Count(sizes[|sizes| - 2]) + 1)
  {
    var counts := ParameterCounts(sizes);
    assert counts[..|counts| - 1] == ParameterCounts(sizes[..|sizes| - 1]);
  }

  /** Layer `i` of `m` has `sizes[i + 1]` neurons, each taking `sizes[i]` inputs. */
  ghost predicate Shaped(m: MLP, sizes: seq<int>)
  {
    LayersShaped(m.layers, sizes)
  }

  /** `MLP(nin, nouts)`: one layer per entry of `nouts`, layer `i` mapping `sizes[i]` inputs
      to `sizes[i + 1]` neurons; its parameters are exactly the Values it constructed, in
      construction order, one per draw. */
  function NewMLP(h: Heap, nin: int, nouts: seq<int>, draw: Draws, k: nat): (res: (Heap, MLP))
    ensures Extends(h, res.0)
    ensures |res.1.layers| == |nouts|
    ensures Shaped(res.1, Sizes(nin, nouts))
    ensures MLPParameters(res.1) == Range(|h|, |res.0|)
    ensures |MLPParameters(res.1)| == Sum(ParameterCounts(Sizes(nin, nouts)))
    ensures Drawn(h, res.0, draw, k)
  {
    var (h1, ls) := NewLayers(h, Sizes(nin, nouts), draw, k);
    (h1, MLP(ls))
  }

  /** Consecutive layers chain: each neuron of a layer takes one input per neuron of the layer before. */
  ghost predicate Chained(m: MLP)
  {
    forall i, j :: 1 <= i < |m.layers| && 0 <= j < |m.layers[i].neurons| ==>
      |m.layers[i].neurons[j].weights| == |m.layers[i - 1].neurons|
  }

  /** A network of the shape `sizes` chains: layer `i` has as many neurons as layer `i + 1`
      has inputs, and the first layer takes `sizes[0]` inputs. */
  lemma ShapedChained(m: MLP, sizes: seq<int>)
    requires Shaped(m, sizes)
    ensures Chained(m)
    ensures |m.layers| > 0 ==> forall j :: 0 <= j < |m.layers[0].neurons| ==> |m.layers[0].neurons[j].weights| == Count(sizes[0])
  {
    if |m.layers| > 0 {
      assert LayerShaped(m.layers[0], sizes[0], sizes[1]);
    }
    forall i, j | 1 <= i < |m.layers| && 0 <= j < |m.layers[i].neurons|
      ensures |m.layers[i].neurons[j].weights| == |m.layers[i - 1].neurons|
    {
      assert LayerShaped(m.layers[i], sizes[i], sizes[i + 1]);
      assert LayerShaped(m.layers[i - 1], sizes[i - 1], sizes[i]);
    }
  }

  /** So a network built by `MLP(nin, nouts)` chains, starting from `nin` inputs. */
  lemma NewMLPChained(h: Heap, nin: int, nouts: seq<int>, draw: Draws, k: nat)
    ensures var m := NewMLP(h, nin, nouts, draw, k).1;
      && Chained(m)
      && (|m.layers| > 0 ==> forall j :: 0 <= j < |m.layers[0].neurons| ==> |m.layers[0].neurons[j].weights| == Count(nin))
  {
    ShapedChained(NewMLP(h, nin, nouts, draw, k).1, Sizes(nin, nouts));
  }

  /** A run of fresh slots filled from the draws lists distinct Values, the `i`-th holding draw `k + i`. */
  lemma RunOfDraws(h: Heap, h': Heap, ps: seq<Ref>, draw: Draws, k: nat)
    requires |h| <= |h'| && ps == Range(|h|, |h'|) && Drawn(h, h', draw, k)
    ensures forall i :: 0 <= i < |ps| ==> ps[i] < |h'| && h'[ps[i]].data == draw(k + i)
    ensures forall i, j :: 0 <= i < j < |ps| ==> ps[i] != ps[j]
  {
    forall i | 0 <= i < |ps|
      ensures ps[i] < |h'| && h'[ps[i]].data == draw(k + i)
    {
      assert ps[i] == |h| + i;
    }
  }

  /** The parameters of a network built by `MLP(nin, nouts)` are the Values its construction
      made, each listed once, holding the random draws in the order they were drawn. */
  lemma NewMLPParametersAreDraws(h: Heap, nin: int, nouts: seq<int>, draw: Draws, k: nat)
    ensures var res := NewMLP(h, nin, nouts, draw, k);
      var ps := MLPParameters(res.1);
      && (forall i :: 0 <= i < |ps| ==> ps[i] < |res.0| && res.0[ps[i]].data == draw(k + i))
      && (forall i, j :: 0 <= i < j < |ps| ==> ps[i] != ps[j])
  {
    var res := NewMLP(h, nin, nouts, draw, k);
    RunOfDraws(h, res.0, MLPParameters(res.1), draw, k);
  }

  /** `random.uniform(-1, 1)` keeps every weight and bias of a new network within [-1, 1]. */
  lemma NewMLPParametersInUniformRange(h: Heap, nin: int, nouts: seq<int>, draw: Draws, k: nat)
    requires forall i: nat :: -1.0 <= draw(i) <= 1.0
    ensures var res := NewMLP(h, nin, nouts, draw, k);
      var ps := MLPParameters(res.1);
      forall i :: 0 <= i < |ps| ==> ps[i] < |res.0| && -1.0 <= res.0[ps[i]].data <= 1.0
  {
    NewMLPParametersAreDraws(h, nin, nouts, draw, k);
  }

  /** For any layer, `parameters()` holds neuron `j`'s parameters right after those of the
      neurons before it and right before those of the neurons after it. */
  lemma LayerParametersInNeuronOrder(l: Layer, j: nat)
    requires j < |l.neurons|
    ensures LayerParameters(l) ==
      LayerParameters(Layer(l.neurons[..j])) + NeuronParameters(l.neurons[j]) + LayerParameters(Layer(l.neurons[j + 1..]))
  {
    var lists := NeuronParameterLists(l.neurons);
    ConcatPiece(lists, j);
    assert lists[..j] == NeuronParameterLists(l.neurons[..j]);
    assert lists[j + 1..] == NeuronParameterLists(l.neurons[j + 1..]);
  }

  /** For any network, `parameters()` holds layer `i`'s parameters right after those of the
      layers before it and right before those of the layers after it. */
  lemma MLPParametersInLayerOrder(m: MLP, i: nat)
    requires i < |m.layers|
    ensures MLPParameters(m) ==
      MLPParameters(MLP(m.layers[..i])) + LayerParameters(m.layers[i]) + MLPParameters(MLP(m.layers[i + 1..]))
  {
    var lists := LayerParameterLists(m.layers);
    ConcatPiece(lists, i);
    assert lists[..i] == LayerParameterLists(m.layers[..i]);
    assert lists[i + 1..] == LayerParameterLists(m.layers[i + 1..]);
  }

  /** What a layer or network call hands back: a single output, or a list of them. */
  datatype Signal<T> = One(x: T) | Many(xs: seq<T>)

  /** The outputs a signal carries, in order. */
  function Outputs<T>(s: Signal<T>): seq<T>
  {
    match s
    case One(x) => [x]
    case Many(xs) => xs
  }

  /** `Layer.__call__`: every neuron fires on the same input, in neuron order; a layer of
      exactly one neuron hands back that neuron's output unwrapped. `fire` stands for
      `Neuron.__call__`, whose arithmetic is not modelled. */
  function LayerCall<T>(l: Layer, x: Signal<T>, fire: (Neuron, Signal<T>) -> T): (y: Signal<T>)
    ensures y.One? <==> |l.neurons| == 1
    ensures |Outputs(y)| == |l.neurons|
    ensures forall j :: 0 <= j < |l.neurons| ==> Outputs(y)[j] == fire(l.neurons[j], x)
  {
    var outs := seq(|l.neurons|, j requires 0 <= j < |l.neurons| => fire(l.neurons[j], x));
    if |outs| == 1 then One(outs[0]) else Many(outs)
  }

  /** The loop of `MLP.__call__`: each layer's result is the next layer's input. With no
      layers the input comes back unchanged; otherwise the result has the last layer's
      shape, unwrapped exactly when that layer has one neuron. */
  function Forward<T>(layers: seq<Layer>, x: Signal<T>, fire: (Neuron, Signal<T>) -> T): (r: Signal<T>)
    ensures |layers| == 0 ==> r == x
    ensures |layers| > 0 ==>
      && (r.One? <==> |layers[|layers| - 1].neurons| == 1)
      && |Outputs(r)| == |layers[|layers| - 1].neurons|
    decreases |layers|
  {
    if |layers| == 0 then x else Forward(layers[1..], LayerCall(layers[0], x, fire), fire)
  }

  /** `MLP.__call__`: a network with no layers returns its input; otherwise it returns one
      output per neuron of its last layer, unwrapped exactly when there is one. */
  function MLPCall<T>(m: MLP, x: Signal<T>, fire: (Neuron, Signal<T>) -> T): (r: Signal<T>)
    ensures |m.layers| == 0 ==> r == x
    ensures |m.layers| > 0 ==>
      && (r.One? <==> |m.layers[|m.layers| - 1].neurons| == 1)
      && |Outputs(r)| == |m.layers[|m.layers| - 1].neurons|
  {
    Forward(m.layers, x, fire)
  }

  /** Running two stacks of layers one after the other is running their concatenation. */
  lemma {:induction false} ForwardAppend<T>(a: seq<Layer>, b: seq<Layer>, x: Signal<T>, fire: (Neuron, Signal<T>) -> T)
    ensures Forward(a + b, x, fire) == Forward(b, Forward(a, x, fire), fire)
    decreases |a|
  {
    if |a| == 0 {
      assert a + b == b;
    } else {
      assert (a + b)[1..] == a[1..] + b;
      ForwardAppend(a[1..], b, LayerCall(a[0], x, fire), fire);
    }
  }

  /** A network's output is its last layer applied to what the layers before it produce:
      a single unwrapped value exactly when the last layer has one neuron, otherwise one
      output per neuron of the last layer. A network with no layers returns its input. */
  lemma MLPCallOutput<T>(m: MLP, x: Signal<T>, fire: (Neuron, Signal<T>) -> T)
    ensures |m.layers| == 0 ==> MLPCall(m, x, fire) == x
    ensures |m.layers| > 0 ==>
      var last := m.layers[|m.layers| - 1];
      var before := Forward(m.layers[..|m.layers| - 1], x, fire);
      && MLPCall(m, x, fire) == LayerCall(last, before, fire)
      && (MLPCall(m, x, fire).One? <==> |last.neurons| == 1)
      && |Outputs(MLPCall(m, x, fire))| == |last.neurons|
      && forall j :: 0 <= j < |last.neurons| ==> Outputs(MLPCall(m, x, fire))[j] == fire(last.neurons[j], before)
  {
    if |m.layers| > 0 {
      var n := |m.layers|;
      assert m.layers == m.layers[..n - 1] + [m.layers[n - 1]];
      ForwardAppend(m.layers[..n - 1], [m.layers[n - 1]], x, fire);
    }
  }
}
