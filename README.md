# LSH_Memory: the key-value memory, in Dafny

This project models the `Memory` module of LSH_Memory (`memory.py`): a
fixed-capacity associative store of `memory_size` slots, each holding a key
(a unit vector), a value (an integer label) and an age. A batch of queries
is answered by nearest-neighbour lookup: each query row is normalized, scored
against every key by a dot product, and the label of the best-scoring slot is
the prediction. In training, a hinge loss compares, for every row, the best
top-k candidate carrying the row's label with the best one carrying another
label. Every query call then updates the memory in place:

1. every slot's age goes up by one;
2. each correctly predicted row blends its query into the key of the slot it
   retrieved (`normalize(key + query)`) and resets that slot's age;
3. when some row was mispredicted, the `batch_size` slots with the largest
   `age + noise` (noise uniform in `[-age_noise, age_noise)`) receive the whole
   batch: row i's query as key, row i's label as value, age 0.

Files and modules:

- `tensor.dfy`, module `Tensor`: `multiply` (a product fold), `random_uniform`
  (an affine map of `torch.rand` samples), `index`, and the row arithmetic
  (`Add`, `Dot`, `Sum`).
- `topk.dfy`, module `Selection`: `torch.topk` on one row, as selection of
  the best remaining position, with lowest-index tie-break. Its contract
  `IsTopK` is proved to determine the result uniquely.
- `loss.dfy`, module `Loss`: `MemoryLoss`, the hinge term, and the masked
  positive and negative scores.
- `memory.dfy`, module `MemoryStore`: the memory's contents as a value
  (`Slots`), the update as pure step functions (`Tick`, `Reinforced`,
  `Evicted`, `Updated`) with lemmas slot by slot, and the class `Memory`.
  The class holds three arrays (`keys`, `values`, `age`). Its methods
  (`Update`, its three steps, `Query`) mutate the arrays in place and are
  proved equal to the step functions. `Predict` only reads.

The similarity matrix is computed with exact reals: `Dot` of the normalized
query row with each key. `F.normalize`, the `torch.randn` draw of the
initial keys and the `torch.rand` samples of the age noise are parameters.
A `Normalizer` is any function that keeps a row's width.

The model follows the code:

- The comment at `memory.py:155` speaks of selecting the item with the oldest
  age, in the singular. The code selects `batch_size` slots
  (`memory.py:159`), not one per mispredicted row, and writes the whole batch
  into them (`memory.py:161-163`), correctly predicted rows included. This
  runs after reinforcement, so a slot reinforced in the same call can be
  overwritten.
- With no same-label candidate, the positive score is 0: the masked
  similarities are multiplied by 0 (`memory.py:120`). Likewise, the negative
  score is 0 when every candidate carries the row's label.

## Model

| member | source | states |
|---|---|---|
| `Tensor.MultiplyAppend` | memory.py:14-15 | the product fold of a concatenation is the product of the folds of the parts |
| `Tensor.MultiplyZero` | memory.py:14-15 | a size product is 0 exactly when some dimension is 0 |
| `Tensor.ColumnSize` | memory.py:14-15 | appending a dimension of size 1 to any shape keeps its number of elements, so a `(memory_size, 1)` shape holds `memory_size` samples |
| `Tensor.RandomUniform` | memory.py:9-12 | samples in [0, 1) land in [low, high] when low <= high, below high when low < high, and the map is invertible when low != high |
| `Tensor.RandomUniformMonotone` | memory.py:9-12 | for low < high, the affine map keeps the order of the samples, both ways |
| `Tensor.Index` | memory.py:22-25 | row i of the result is i followed by row i of x |
| `Selection.TopK` | memory.py:98 | k distinct in-range positions; each ranks ahead (higher score, or equal score at lower index) of every later one and of every position left out |
| `Selection.TopKUnique` | memory.py:98 | any sequence meeting that contract is exactly TopK's result |
| `Selection.TopKPrefix` | memory.py:101 | the first m of the top k are the top m, so `topk_indices[:, 0]` does not depend on top_k |
| `Selection.TopKFirstIsArgMax` | memory.py:101 | the first selected position has a maximal score and is the lowest position with that score |
| `Loss.Hinge` | memory.py:35 | the clamped term is neg - pos + margin or 0, whichever is larger: it is >= 0, >= neg - pos + margin, and is 0 exactly when pos >= neg + margin |
| `Loss.MemoryLoss` | memory.py:27-37 | needs equally long score vectors; the mean hinge is >= 0 and is 0 exactly when every pos >= neg + margin |
| `Loss.Largest` | memory.py:120-121 | `torch.topk(s, 1)`'s value is an entry of s and no entry exceeds it |
| `Loss.PositiveScore` | memory.py:117-120 | at least every same-label candidate's similarity and attained by one of them or by a masked 0; 0 when no candidate has the label |
| `Loss.NegativeScore` | memory.py:117-121 | at least every other-label candidate's similarity and attained by one of them or by a masked 0; 0 when every candidate has the label |
| `MemoryStore.Nearest` | memory.py:97-101 | `topk_indices[i, 0]` is a slot of maximal similarity to the query row, the lowest such slot |
| `MemoryStore.BatchLoss` | memory.py:106-123 | the query loss is >= 0 and is 0 exactly when every row's positive score beats its negative score by the margin |
| `MemoryStore.ReinforcedSlot` | memory.py:144-152 | the correct-row branch gives a slot retrieved by a correct row the blend of its pre-update key with the last such row's query and age 0; other slots keep key and age; values never change |
| `MemoryStore.EvictedSlot` | memory.py:161-163 | with distinct targets, the i-th target holds row i's query, label and age 0; all other slots are unchanged |
| `MemoryStore.UpdatedSlot` | memory.py:130-163 | per slot after update: an eviction target holds its row's query and label with age 0; else a slot retrieved by a correct row holds the blended key, its old label and age 0; else old key, old label, age + 1 |
| `MemoryStore.UpdatedAges` | memory.py:133-163 | after update every age is 0, or is old age + 1 with key and label unchanged |
| `MemoryStore.UpdatedValues` | memory.py:144-163 | labels change only at eviction targets, and not at all when every row is predicted correctly |
| `MemoryStore.OldestTargets` | memory.py:157-160 | on a miss, batch_size distinct slots are chosen; no slot left out has a larger noisy age; with noise in [-age_noise, age_noise], no slot left out is more than 2 * age_noise steps older than a target, so with age_noise = 0 eviction is oldest first |
| `MemoryStore.Memory.constructor` | memory.py:46-58 | refuses top_k = 0, on which the temperature's logarithm fails; top_k is clamped to min(top_k, memory_size); keys are the normalized draws; every value and every age is 0 |
| `MemoryStore.Memory.NearestSlots` | memory.py:97-101 | `y_hat_indices`: one in-range slot per row, of maximal similarity to the normalized row |
| `MemoryStore.Memory.Predict` | memory.py:60-75 | each prediction is the label of a slot whose key is most similar to the normalized row; a function, so keys, values and ages are unchanged |
| `MemoryStore.Memory.AgeNoise` | memory.py:158 | memory_size noise samples, within [-age_noise, age_noise) when age_noise > 0 |
| `MemoryStore.Memory.Update` | memory.py:130-163 | the arrays end as `Updated` of their old contents: tick, reinforcement, and eviction when some row is mispredicted |
| `MemoryStore.Memory.TickAges` | memory.py:133-134 | every age goes up by 1; keys and values unchanged |
| `MemoryStore.Memory.Reinforce` | memory.py:144-152 | the arrays end as `Reinforced` of their contents before the step |
| `MemoryStore.Memory.Evict` | memory.py:157-163 | the arrays end as `Evicted` of their contents before the step |
| `MemoryStore.Memory.Query` | memory.py:77-128 | `predict` defaults to false; returns predict's labels; the loss is None exactly when `predict` is true and is otherwise `BatchLoss` of the memory before the call; the memory is always updated |

## Left out

- Softmax scores and `softmax_temperature` (`memory.py:56, 74, 104`): floating-point `exp` and `log`. `inverse_temp` only feeds the temperature, so the constructor has no such parameter. `Predict` and `Query` return no confidence.
- `flatten` and the `resize_` calls (`memory.py:17-20, 113-115`): in-place tensor reshaping. The model reads the candidates' labels directly (`Retrieved`).
- `F.normalize` is a parameter. The unit-norm invariant of keys is not modelled: it rests on floating-point division by the L2 norm.
- `torch.randn` and `torch.rand` are inputs (`gaussian`, `unit`). Nothing in the model generates them.
- Floating point in general: similarities, noise, loss and ages are exact reals or unbounded naturals. There is no rounding and no NaN. In particular `self.age` is a float32 tensor (`memory.py:51`), so `self.age += 1` (`memory.py:134`) stops changing an age once it reaches 2^24. `MemoryStore.UpdatedAges`' "old age + 1" holds only below that.
- `.cpu()`, `ag.Variable` and `nn.Module` have no logical content.
- `MemoryStore.Memory.Update`: the branch guards are modelled as "some row correct" / "some row incorrect", as the comments at `memory.py:144, 154` state. As written, `torch.squeeze` turns the `nonzero` result for exactly one correct (or one incorrect) row into a 0-d tensor. The guard at `memory.py:141-142` is then false and that branch is skipped. Under the same squeeze, an empty `nonzero()` result of shape (0, 1) becomes shape (0,), so `len(...) > 0` holds: a batch of two or more rows with no incorrect row then takes the eviction branch (`memory.py:138, 141, 157`). With a batch of one row, depending on the torch version, `result` (`memory.py:137`) is already 0-d. Its `nonzero()` then has shape (1, 0) or (0, 0) and keeps a dimension after `squeeze`, so both guards hold. Reinforcement then indexes with an empty tensor and changes nothing, and eviction always runs. Tensor ranks are not modelled, so none of these effects is.
- `MemoryStore.Memory.Reinforce`: when several correct rows retrieved the same slot, every blend reads the keys as they were before the step (gather, then scatter). The last row's write wins. PyTorch leaves the order of duplicate-index writes (`memory.py:151`) unspecified.
- `Selection.TopK`: ties are broken toward the lower index. `torch.topk` does not specify its tie order.
- `MemoryStore.Memory.Query`, `MemoryStore.BatchLoss` and `Loss.MemoryLoss`: the loss needs a non-empty batch. `torch.mean` of an empty batch is NaN, which has no real value.
- `Tensor.Index`: requires `|x| == batch_size`. With other sizes `torch.cat` (`memory.py:25`) raises, and that error is not modelled.
- `MemoryStore.Memory.Query` and `MemoryStore.Memory.Update` require batch_size <= memory_size unless every row is predicted correctly, because `torch.topk` (`memory.py:159`) raises otherwise. The partial update done before that error is not modelled.
- `MemoryStore.Memory.constructor` requires top_k >= 1: `math.log(0.2 * top_k)` (`memory.py:56`) raises ValueError for top_k = 0. The division by `inverse_temp` on the same line raises for inverse_temp = 0. The constructor has no `inverse_temp` parameter, so that error is not modelled.
- `MemoryStore.Memory.Predict` and `MemoryStore.Memory.Query` require top_k >= 1, because `topk_indices[:, 0]` raises on an empty selection. The clamped top_k is 0 when memory_size is 0. They also require query rows of width key_dim, which `torch.matmul` requires.
