# Scalar Values and network bookkeeping, in Dafny

This project models two small pieces of a Python neural-network-from-scratch
repository and proves properties about them.

- **engine.py**: the scalar `Value` and its operators `+`, `*`, reflected `*` and
  unary `-`. A bare number on the right of an operator is first coerced to a
  fresh leaf `Value`.
- **nn.py**: `Neuron`, `Layer` and `MLP`. This covers how they are built, how
  `parameters()` flattens their weights and biases, and how the forward calls
  chain through the layers.

Python objects have identity, so the model keeps every `Value` on a heap
(`Engine.Heap`, a sequence). A reference is a slot index. `Value(x)` appends one
slot, and nothing ever writes to an existing slot. With this we can state three
facts:

- an operator returns a *fresh* `Value`;
- its operands stay untouched;
- `parameters()` returns exactly the `Value` objects the constructor made, each
  once, in construction order.

The `data` field is a Dafny `real`. The model does not include
`random.uniform(-1, 1)`. Its place is taken by a stream of draws
(`draw(i)` is the result of the i-th call), which the constructors consume in
the order Python makes the calls.

Files:

- `engine.dfy`: module `Engine` (engine.py).
- `nn.dfy`: module `NN` (nn.py).
- `seqs.dfy`: module `Seqs`, which holds the sequence helpers: flattening, runs of slots and sums.

engine.py is an early draft. It has no `grad` field, no backward pass, no
topological sort and no `power`, `tanh`, `exp` or `sigmoid`, so none of them is
modelled. Its `__mul__` has no `return`, so `Engine.Mul` yields `None` (see
Findings), and so do `Engine.RMul` and `Engine.Neg`, which delegate to it.

## Model

| member | source | states |
|---|---|---|
| Engine.New | engine.py:6-7 | `Value(data)` makes a Value in a slot no existing Value occupies, holding exactly `data`; every existing Value is unchanged |
| Engine.Coerce | engine.py:13 | a Value operand is used as it is; a bare number becomes one fresh leaf Value holding that number |
| Engine.Add | engine.py:12-15 | `a + b` returns a fresh Value whose data is `a.data` plus the operand's number; it constructs one Value, or two when the operand is a bare number (the coerced leaf, then the sum); existing Values are unchanged |
| Engine.AddCoercesScalar | engine.py:13-14 | adding a bare number `n` is exactly constructing the leaf `Value(n)` and then adding that Value |
| Engine.OperatorsKeepExistingValues | engine.py:12-25 | `+`, `*`, reflected `*` and `-` leave both operands and every other existing Value with the same data |
| Engine.Mul | engine.py:17-19 | `a * b` coerces a bare operand to a leaf like `+`, constructs a Value holding `a.data` times the operand's number, and returns `None` |
| Engine.RMul | engine.py:21-22 | reflected multiplication `n * a` is `a * n`: the same Values are constructed, and the result is `None` |
| Engine.Neg | engine.py:24-25 | `-a` is `a * -1`: it constructs the leaf `-1` and a Value holding `-a.data`, and returns `None` |
| Engine.MulReturning | engine.py:17-19 | the evidently intended `a * b`: returns the fresh Value holding the product |
| Engine.MulDropsProduct | engine.py:17-19 | the written and the intended multiplication construct the same Values; only the reference to the product is dropped |
| Engine.MulTwoByThree | engine.py:17-19 | `Value(2) * Value(3)` constructs a Value holding 6 and returns `None`; the intended method returns that Value |
| NN.NewValues | nn.py:9 | the weight list comprehension makes `nin` fresh Values in consecutive slots, in order, holding the successive draws |
| NN.NewNeuron | nn.py:9-10 | `Neuron(nin)` holds exactly `nin` weights (none for a negative `nin`, as `range` gives), then one bias; its parameters are exactly the Values it constructed, in order |
| NN.LayerParameters | nn.py:36-43 | `Layer.parameters()` has as many entries as all its neurons' parameter lists together: one per weight and one per bias |
| NN.NeuronParameters | nn.py:22-24 | `Neuron.parameters()` has length `len(weights) + 1`, begins with the weights in order, and ends with the bias |
| NN.NewNeurons | nn.py:28 | the neuron list comprehension builds `nout` neurons of `nin` weights each; their parameter lists together cover the constructed Values in order |
| NN.NewLayer | nn.py:27-28 | `Layer(nin, nout)` holds exactly `Count(nout)` neurons of `nin` inputs each, where `Count(n)` is `len(range(n))`, that is `max(n, 0)`; its `parameters()` has length `Count(nout) * (Count(nin) + 1)` and lists the Values it constructed, in construction order |
| NN.LayerParametersInNeuronOrder | nn.py:36-43 | for any layer, `parameters()` is neuron `j`'s parameter list placed between the lists of the neurons before it and those after it |
| NN.Sizes | nn.py:51 | `sizes = [nin] + nouts` has one more entry than `nouts`, starts with `nin`, and continues with `nouts` unchanged |
| NN.NewLayers | nn.py:51-52 | the layer comprehension over `sizes` builds `len(sizes) - 1` layers; layer `i` has `Count(sizes[i+1])` neurons of `sizes[i]` inputs; the parameter count is the sum of `Count(sizes[i+1]) * (Count(sizes[i]) + 1)` |
| NN.NewMLP | nn.py:46-52 | `MLP(nin, nouts)` has `len(nouts)` layers shaped by `sizes = [nin] + nouts`; `parameters()` has length sum over `i` of `Count(nouts[i]) * (Count(sizes[i]) + 1)` and lists the Values constructed, in order |
| NN.ShapedChained | nn.py:51-52 | in a network shaped by `sizes`, each layer's neuron count equals the next layer's input count, and the first layer takes `sizes[0]` inputs |
| NN.NewMLPChained | nn.py:51-52 | a network built by `MLP(nin, nouts)` chains this way, starting from `nin` inputs |
| NN.NewMLPParametersAreDraws | nn.py:61-68 | a new network's `parameters()` lists distinct Values; the `i`-th holds the `i`-th random draw, so the flattening order is the construction order |
| NN.NewMLPParametersInUniformRange | nn.py:9-10 | when every draw lies in [-1, 1], as `random.uniform(-1, 1)` guarantees, so does every parameter of a new network |
| NN.MLPParameters | nn.py:61-68 | `MLP.parameters()` has as many entries as all its layers' parameter lists together |
| NN.MLPParametersInLayerOrder | nn.py:61-68 | for any network, `parameters()` is layer `i`'s parameter list placed between the lists of the layers before it and those after it |
| NN.LayerCall | nn.py:30-34 | a layer call fires every neuron on the same input and gives one output per neuron, in neuron order; it gives the single output unwrapped exactly when the layer has one neuron |
| NN.Forward | nn.py:57-59 | the loop over the layers returns its input when there are none; otherwise its result has one output per neuron of the last layer, unwrapped exactly when that layer has one neuron |
| NN.MLPCall | nn.py:54-59 | `MLP.__call__` returns its input for a network with no layers; otherwise one output per neuron of the last layer, unwrapped exactly when that layer has one neuron |
| NN.ForwardAppend | nn.py:54-59 | passing an input through two stacks of layers in turn is passing it through their concatenation: each layer's result feeds the next |
| NN.MLPCallOutput | nn.py:54-59 | a network with no layers returns its input; otherwise its output is the last layer applied to what the earlier layers produce, unwrapped exactly when that layer has one neuron |

## Left out

- `Value.__repr__` (engine.py:9-10): string formatting of floats.
- Floating-point rounding: `data` is an exact `real`.
- `random.uniform(-1, 1)` (nn.py:9-10): replaced by the `draw` stream parameter. Its range is used only as a hypothesis of `NN.NewMLPParametersInUniformRange`.
- The arithmetic of `Neuron.__call__` (nn.py:12-20): the model leaves it uninterpreted, as the `fire` parameter. It calls a `tanh` that engine.py does not define, it seeds `sum` with a list, and it depends on `__mul__`, which returns `None`.
- NN.LayerCall: assumes that the neuron call `fire` returns. As written, `Neuron.__call__` (nn.py:18-19) always raises: each `wi * xi` is `None` because `__mul__` has no `return`, so `[self.bias] + None` raises `TypeError`; with no weights or an empty input, `sum` yields the list `[self.bias]`, which has no `tanh`, so `AttributeError` is raised. Hence `Layer.__call__` (nn.py:33) returns only for a layer with no neurons, and then returns `[]`.
- NN.MLPCallOutput: assumes, like `NN.LayerCall`, that the neuron call returns. As written, `MLP.__call__` (nn.py:57-59) raises at the first layer that has a neuron, so it returns only when every layer is empty. `NN.Forward` and `NN.MLPCall` rest on the same assumption.
- Gradients, the backward pass and topological ordering: the engine.py modelled here contains none of them.
- Python's operator dispatch. The model takes the operand of each operator as either a Value or a number. It does not model `n + a`, which raises `TypeError` because there is no `__radd__`. It does not model an operand of some other type.
- Reclaiming Values no one refers to: the heap only grows, so the dropped product of `__mul__` stays in its slot.
- test.py: it is a training driver with numpy arrays, a loss loop, in-place parameter updates and console output.

## Findings

| source | as written | input that shows it | evidently intended | confidence | as-written member | corrected member |
|---|---|---|---|---|---|---|
| engine.py:17-19 | `__mul__` builds `out` but has no `return`, so every product, `__rmul__` and `__neg__` evaluates to `None` | `Value(2) * Value(3)` yields `None`; the Value holding 6 is built and then unreachable | `return out`, as in `__add__` | high; not executed | Engine.MulTwoByThree | Engine.MulReturning |

`Engine.Mul`, `Engine.RMul` and `Engine.Neg` keep the behaviour as written,
because that is what the source does. Nothing else in the model multiplies:
the neuron arithmetic is uninterpreted. `Engine.MulDropsProduct` shows that the
corrected and the written method differ only in the returned reference.
