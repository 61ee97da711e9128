/** The Memory class: a fixed-capacity store of keys (unit vectors), values
    (integer labels) and ages, its nearest-neighbour query, and its update
    policy that reinforces correctly retrieved slots and overwrites the slots
    with the largest noisy age when some row was mispredicted. */
module MemoryStore {
  import opened Tensor
  import opened Selection
  import opened Loss

  datatype Option<T> = None | Some(value: T)

  /** F.normalize(v, dim=1) divides a row by its L2 norm, floating-point code
      that this model does not evaluate: it is passed in, and only its
      preservation of a row's width is relied on. */
  type Normalizer = f: Vector -> Vector | forall v :: |f(v)| == |v| witness (v: Vector) => v

  /** The three parallel arrays of the memory, read as values: slot j holds
      keys[j], values[j] and ages[j]. */
  datatype Slots = Slots(keys: seq<Vector>, values: seq<int>, ages: seq<nat>)
  {
    /** Three arrays of `size` entries, every key of width `dim`. */
    predicate Shaped(size: nat, dim: nat)
    {
      && |keys| == size && |values| == size && |ages| == size
      && forall j :: 0 <= j < size ==> |keys[j]| == dim
    }
  }

  /** Every row of a batch has width `dim`. */
  predicate Rows(xs: seq<Vector>, dim: nat)
  {
    forall i :: 0 <= i < |xs| ==> |xs[i]| == dim
  }

  /** Every stored key has the width of every query row. */
  predicate Fits(keys: seq<Vector>, query: seq<Vector>)
  {
    forall i, j :: 0 <= i < |query| && 0 <= j < |keys| ==> |keys[j]| == |query[i]|
  }

  /** F.normalize(x, dim=1): every row of the batch normalized. */
  function Normalized(x: seq<Vector>, normalize: Normalizer): (q: seq<Vector>)
  {
    seq(|x|, i requires 0 <= i < |x| => normalize(x[i]))
  }

  /** Row of torch.matmul(query, keys^T): the similarity of one query row to
      every slot's key. */
  function Similarities(q: Vector, keys: seq<Vector>): (s: seq<real>)
    requires forall j :: 0 <= j < |keys| ==> |keys[j]| == |q|
    ensures |s| == |keys|
  {
    seq(|keys|, j requires 0 <= j < |keys| => Dot(q, keys[j]))
  }

  /** topk_indices[i, 0]: the slot whose key is most similar to q, the lowest
      such slot on ties, whatever the number k of candidates asked for. */
  function Nearest(q: Vector, keys: seq<Vector>, k: nat): (n: nat)
    requires 1 <= k <= |keys|
    requires forall j :: 0 <= j < |keys| ==> |keys[j]| == |q|
    ensures n < |keys|
    ensures forall j :: 0 <= j < |keys| ==> Dot(q, keys[j]) <= Dot(q, keys[n])
    ensures forall j :: 0 <= j < |keys| && Dot(q, keys[j]) == Dot(q, keys[n]) ==> n <= j
  {
    var s := Similarities(q, keys);
    TopKFirstIsArgMax(s, k);
    assert forall j :: 0 <= j < |keys| ==> s[j] == Dot(q, keys[j]);
    TopK(s, k)[0]
  }

  /** The top-k candidates of one normalized query row: their similarities
      (the values torch.topk returns) and the labels stored in their slots. */
  function Retrieved(s: Slots, q: Vector, k: nat): (r: (seq<real>, seq<int>))
    requires |s.values| == |s.keys| && 1 <= k <= |s.keys|
    requires forall j :: 0 <= j < |s.keys| ==> |s.keys[j]| == |q|
    ensures |r.0| == k && |r.1| == k
  {
    var sims := Similarities(q, s.keys);
    var c := TopK(sims, k);
    (seq(k, j requires 0 <= j < k => sims[c[j]]), seq(k, j requires 0 <= j < k => s.values[c[j]]))
  }

  /** A row is separated when its best same-label candidate beats its best
      other-label candidate by at least the margin. */
  predicate Separated(s: Slots, q: Vector, target: int, k: nat, margin: real)
    requires |s.values| == |s.keys| && 1 <= k <= |s.keys|
    requires forall j :: 0 <= j < |s.keys| ==> |s.keys[j]| == |q|
  {
    var r := Retrieved(s, q, k);
    PositiveScore(r.0, r.1, target) >= NegativeScore(r.0, r.1, target) + margin
  }

  /** The loss of a query call: MemoryLoss over the rows' positive and
      negative scores. It is never negative and vanishes exactly when every
      row is separated. */
  function BatchLoss(s: Slots, query: seq<Vector>, y: seq<int>, k: nat, margin: real): (loss: real)
    requires |s.values| == |s.keys| && 1 <= k <= |s.keys| && Fits(s.keys, query)
    requires |y| == |query| > 0
    ensures loss >= 0.0
    ensures loss == 0.0 <==> forall i :: 0 <= i < |query| ==> Separated(s, query[i], y[i], k, margin)
  {
    var positive := seq(|query|, i requires 0 <= i < |query| =>
      var r := Retrieved(s, query[i], k); PositiveScore(r.0, r.1, y[i]));
    var negative := seq(|query|, i requires 0 <= i < |query| =>
      var r := Retrieved(s, query[i], k); NegativeScore(r.0, r.1, y[i]));
    assert forall i :: 0 <= i < |query| ==>
      (positive[i] >= negative[i] + margin <==> Separated(s, query[i], y[i], k, margin));
    MemoryLoss(positive, negative, margin)
  }

  // ---------------------------------------------------------------------------
  // update(query, y, y_hat, y_hat_indices), step by step, on values

  /** Step 1: the global tick, every slot one step older. */
  function Tick(s: Slots): Slots
  {
    s.(ages := seq(|s.ages|, j requires 0 <= j < |s.ages| => s.ages[j] + 1))
  }

  /** Step 2 over the first n rows of the batch: a correctly predicted row
      (yHat[i] == y[i]) sets the key of the slot it retrieved to
      normalize(key + query row) and that slot's age to 0. Every blend reads
      the keys of s, as they were before the step; a later row wins a slot that
      several rows retrieved. */
  function Reinforced(s: Slots, query: seq<Vector>, y: seq<int>, yHat: seq<int>,
                      slots: seq<nat>, normalize: Normalizer, n: nat): (t: Slots)
    requires n <= |query| == |y| == |yHat| == |slots|
    requires |s.values| == |s.keys| == |s.ages| && Fits(s.keys, query)
    requires forall i :: 0 <= i < |slots| ==> slots[i] < |s.keys|
    ensures |t.keys| == |s.keys| && t.values == s.values && |t.ages| == |s.ages|
    ensures forall j :: 0 <= j < |s.keys| ==> |t.keys[j]| == |s.keys[j]|
    decreases n
  {
    if n == 0 then s
    else
      var t := Reinforced(s, query, y, yHat, slots, normalize, n - 1);
      var slot := slots[n - 1];
      if yHat[n - 1] != y[n - 1] then t
      else Slots(t.keys[slot := normalize(Add(s.keys[slot], query[n - 1]))], t.values, t.ages[slot := 0])
  }

  /** The last correctly predicted row among the first n that retrieved slot j;
      -1 when there is none. */
  function LastCorrect(y: seq<int>, yHat: seq<int>, slots: seq<nat>, j: nat, n: nat): (r: int)
    requires n <= |y| == |yHat| == |slots|
    ensures -1 <= r < n
    ensures r >= 0 ==> yHat[r] == y[r] && slots[r] == j
    ensures forall i :: r < i < n ==> !(yHat[i] == y[i] && slots[i] == j)
  {
    if n == 0 then -1
    else if yHat[n - 1] == y[n - 1] && slots[n - 1] == j then n - 1
    else LastCorrect(y, yHat, slots, j, n - 1)
  }

  /** What step 2 does to one slot: a slot retrieved by some correct row gets
      the blend of its old key with the last such row's query and age 0; any
      other slot keeps key and age. Values are never touched. */
  lemma {:induction false} ReinforcedSlot(s: Slots, query: seq<Vector>, y: seq<int>, yHat: seq<int>,
                                          slots: seq<nat>, normalize: Normalizer, n: nat, j: nat)
    requires n <= |query| == |y| == |yHat| == |slots|
    requires |s.values| == |s.keys| == |s.ages| && Fits(s.keys, query)
    requires forall i :: 0 <= i < |slots| ==> slots[i] < |s.keys|
    requires j < |s.keys|
    ensures var t := Reinforced(s, query, y, yHat, slots, normalize, n);
            var r := LastCorrect(y, yHat, slots, j, n);
      && t.values == s.values
      && (r < 0 ==> t.keys[j] == s.keys[j] && t.ages[j] == s.ages[j])
      && (r >= 0 ==> t.keys[j] == normalize(Add(s.keys[j], query[r])) && t.ages[j] == 0)
  {
    if n > 0 {
      ReinforcedSlot(s, query, y, yHat, slots, normalize, n - 1, j);
      if yHat[n - 1] == y[n - 1] && slots[n - 1] == j {
        assert LastCorrect(y, yHat, slots, j, n) == n - 1;
      } else {
        assert LastCorrect(y, yHat, slots, j, n) == LastCorrect(y, yHat, slots, j, n - 1);
      }
    }
  }

  /** Step 3 writes over the first n rows: row i's query, its label and age 0
      go to slot oldest[i]. */
  function Evicted(s: Slots, query: seq<Vector>, y: seq<int>, oldest: seq<nat>, n: nat): (t: Slots)
    requires n <= |oldest| == |query| == |y|
    requires |s.values| == |s.keys| == |s.ages|
    requires forall i :: 0 <= i < |oldest| ==> oldest[i] < |s.keys|
    ensures |t.keys| == |s.keys| && |t.values| == |s.values| && |t.ages| == |s.ages|
    decreases n
  {
    if n == 0 then s
    else
      var t := Evicted(s, query, y, oldest, n - 1);
      var slot := oldest[n - 1];
      Slots(t.keys[slot := query[n - 1]], t.values[slot := y[n - 1]], t.ages[slot := 0])
  }

  /** What step 3 does to one slot, the targets being distinct: the i-th
      target holds row i's query and label with age 0; every other slot is
      unchanged. */
  lemma {:induction false} EvictedSlot(s: Slots, query: seq<Vector>, y: seq<int>, oldest: seq<nat>, n: nat, j: nat)
    requires n <= |oldest| == |query| == |y|
    requires |s.values| == |s.keys| == |s.ages|
    requires forall i :: 0 <= i < |oldest| ==> oldest[i] < |s.keys|
    requires forall a, b :: 0 <= a < b < |oldest| ==> oldest[a] != oldest[b]
    requires j < |s.keys|
    ensures var t := Evicted(s, query, y, oldest, n);
      && (forall i :: 0 <= i < n && oldest[i] == j ==>
            t.keys[j] == query[i] && t.values[j] == y[i] && t.ages[j] == 0)
      && ((forall i :: 0 <= i < n ==> oldest[i] != j) ==>
            t.keys[j] == s.keys[j] && t.values[j] == s.values[j] && t.ages[j] == s.ages[j])
  {
    if n > 0 {
      EvictedSlot(s, query, y, oldest, n - 1, j);
    }
  }

  /** Some row of the batch was mispredicted. */
  predicate SomeIncorrect(y: seq<int>, yHat: seq<int>)
    requires |y| == |yHat|
  {
    exists i :: 0 <= i < |y| && yHat[i] != y[i]
  }

  /** age_with_noise = age + noise. */
  function NoisyAges(ages: seq<nat>, noise: seq<real>): (a: seq<real>)
    requires |noise| == |ages|
  {
    seq(|ages|, j requires 0 <= j < |ages| => ages[j] as real + noise[j])
  }

  /** A batch of |query| rows with their labels, predictions and retrieved
      slots, against the memory's contents. */
  predicate BatchArgs(s: Slots, query: seq<Vector>, y: seq<int>, yHat: seq<int>, slots: seq<nat>)
  {
    && |y| == |query| && |yHat| == |query| && |slots| == |query|
    && |s.values| == |s.keys| && |s.ages| == |s.keys|
    && Fits(s.keys, query)
    && (forall i :: 0 <= i < |slots| ==> slots[i] < |s.keys|)
  }

  /** The preconditions of update on the memory's contents: the batch, one
      noise sample per slot, and no more rows than slots when eviction runs. */
  predicate UpdateArgs(s: Slots, query: seq<Vector>, y: seq<int>, yHat: seq<int>, slots: seq<nat>, noise: seq<real>)
  {
    && BatchArgs(s, query, y, yHat, slots)
    && |noise| == |s.keys|
    && (SomeIncorrect(y, yHat) ==> |query| <= |s.keys|)
  }

  /** The memory after steps 1 and 2. */
  function Reinforcement(s: Slots, query: seq<Vector>, y: seq<int>, yHat: seq<int>, slots: seq<nat>,
                         normalize: Normalizer): Slots
    requires BatchArgs(s, query, y, yHat, slots)
  {
    Reinforced(Tick(s), query, y, yHat, slots, normalize, |query|)
  }

  /** The eviction targets when some row is mispredicted: as many distinct
      slots as the batch has rows, those with the largest noisy age after
      steps 1 and 2. */
  function Oldest(s: Slots, query: seq<Vector>, y: seq<int>, yHat: seq<int>, slots: seq<nat>,
                  normalize: Normalizer, noise: seq<real>): (oldest: seq<nat>)
    requires UpdateArgs(s, query, y, yHat, slots, noise)
    requires SomeIncorrect(y, yHat)
  {
    var r := Reinforcement(s, query, y, yHat, slots, normalize);
    TopK(NoisyAges(r.ages, noise), |query|)
  }

  /** update(query, y, y_hat, y_hat_indices) on the memory's contents, with
      `noise` the sample drawn for the eviction step. */
  function Updated(s: Slots, query: seq<Vector>, y: seq<int>, yHat: seq<int>, slots: seq<nat>,
                   normalize: Normalizer, noise: seq<real>): (t: Slots)
    requires UpdateArgs(s, query, y, yHat, slots, noise)
    ensures |t.keys| == |s.keys| && |t.values| == |s.values| && |t.ages| == |s.ages|
  {
    var r := Reinforcement(s, query, y, yHat, slots, normalize);
    if SomeIncorrect(y, yHat) then
      Evicted(r, query, y, Oldest(s, query, y, yHat, slots, normalize, noise), |query|)
    else r
  }

  /** What update does to one slot. When some row is mispredicted, the i-th
      eviction target receives row i's query, row i's label and age 0, whether
      row i was predicted correctly or not and whether the slot was just
      reinforced. Otherwise a slot retrieved by a correct row gets its key
      blended with that row's query (the last such row) and age 0, keeping its
      label. Every other slot keeps key and label and is one step older. */
  lemma UpdatedSlot(s: Slots, query: seq<Vector>, y: seq<int>, yHat: seq<int>, slots: seq<nat>,
                    normalize: Normalizer, noise: seq<real>, j: nat)
    requires UpdateArgs(s, query, y, yHat, slots, noise)
    requires j < |s.keys|
    ensures var t := Updated(s, query, y, yHat, slots, normalize, noise);
            var evicting := SomeIncorrect(y, yHat);
            var r := LastCorrect(y, yHat, slots, j, |query|);
      && |t.keys| == |s.keys| && |t.values| == |s.values| && |t.ages| == |s.ages|
      && (evicting ==> forall i :: 0 <= i < |query| && Oldest(s, query, y, yHat, slots, normalize, noise)[i] == j ==>
            t.keys[j] == query[i] && t.values[j] == y[i] && t.ages[j] == 0)
      && ((!evicting || j !in Oldest(s, query, y, yHat, slots, normalize, noise)) ==>
            && t.values[j] == s.values[j]
            && (r >= 0 ==> t.keys[j] == normalize(Add(s.keys[j], query[r])) && t.ages[j] == 0)
            && (r < 0 ==> t.keys[j] == s.keys[j] && t.ages[j] == s.ages[j] + 1))
  {
    var r := Reinforcement(s, query, y, yHat, slots, normalize);
    var ticked := Tick(s);
    assert ticked.keys == s.keys && ticked.values == s.values && ticked.ages[j] == s.ages[j] + 1;
    ReinforcedSlot(ticked, query, y, yHat, slots, normalize, |query|, j);
    if SomeIncorrect(y, yHat) {
      var oldest := Oldest(s, query, y, yHat, slots, normalize, noise);
      assert IsTopK(NoisyAges(r.ages, noise), |query|, oldest);
      EvictedSlot(r, query, y, oldest, |query|, j);
      assert Updated(s, query, y, yHat, slots, normalize, noise) == Evicted(r, query, y, oldest, |query|);
    } else {
      assert Updated(s, query, y, yHat, slots, normalize, noise) == r;
    }
  }

  /** Age monotonicity: after update every slot is either one step older with
      its key and label unchanged, or was written and has age 0. */
  lemma UpdatedAges(s: Slots, query: seq<Vector>, y: seq<int>, yHat: seq<int>, slots: seq<nat>,
                    normalize: Normalizer, noise: seq<real>)
    requires UpdateArgs(s, query, y, yHat, slots, noise)
    ensures var t := Updated(s, query, y, yHat, slots, normalize, noise);
      && |t.ages| == |s.ages|
      && forall j :: 0 <= j < |s.ages| ==>
           t.ages[j] == 0 ||
           (t.ages[j] == s.ages[j] + 1 && t.keys[j] == s.keys[j] && t.values[j] == s.values[j])
  {
    forall j | 0 <= j < |s.ages|
      ensures var t := Updated(s, query, y, yHat, slots, normalize, noise);
        t.ages[j] == 0 || (t.ages[j] == s.ages[j] + 1 && t.keys[j] == s.keys[j] && t.values[j] == s.values[j])
    {
      UpdatedSlot(s, query, y, yHat, slots, normalize, noise, j);
    }
  }

  /** Labels change only by eviction: with every row predicted correctly no
      label changes, and otherwise only eviction targets change. */
  lemma UpdatedValues(s: Slots, query: seq<Vector>, y: seq<int>, yHat: seq<int>, slots: seq<nat>,
                      normalize: Normalizer, noise: seq<real>)
    requires UpdateArgs(s, query, y, yHat, slots, noise)
    ensures var t := Updated(s, query, y, yHat, slots, normalize, noise);
      && (!SomeIncorrect(y, yHat) ==> t.values == s.values)
      && forall j :: 0 <= j < |s.values| && t.values[j] != s.values[j] ==>
           SomeIncorrect(y, yHat) && j in Oldest(s, query, y, yHat, slots, normalize, noise)
  {
    var t := Updated(s, query, y, yHat, slots, normalize, noise);
    forall j | 0 <= j < |s.values|
      ensures t.values[j] != s.values[j] ==> SomeIncorrect(y, yHat) && j in Oldest(s, query, y, yHat, slots, normalize, noise)
    {
      UpdatedSlot(s, query, y, yHat, slots, normalize, noise, j);
    }
  }

  /** The eviction targets are as many distinct slots as the batch has rows,
      and no slot left out has a larger noisy age than a target. With noise in
      [-ageNoise, ageNoise], no slot left out is more than 2 * ageNoise steps
      older than a target; with ageNoise == 0 eviction is oldest first. */
  lemma OldestTargets(s: Slots, query: seq<Vector>, y: seq<int>, yHat: seq<int>, slots: seq<nat>,
                      normalize: Normalizer, noise: seq<real>, ageNoise: real)
    requires UpdateArgs(s, query, y, yHat, slots, noise)
    requires SomeIncorrect(y, yHat)
    requires forall j :: 0 <= j < |noise| ==> -ageNoise <= noise[j] <= ageNoise
    ensures var oldest := Oldest(s, query, y, yHat, slots, normalize, noise);
            var ages := Reinforcement(s, query, y, yHat, slots, normalize).ages;
            var noisy := NoisyAges(ages, noise);
      && |oldest| == |query|
      && (forall i :: 0 <= i < |oldest| ==> oldest[i] < |s.keys|)
      && (forall a, b :: 0 <= a < b < |oldest| ==> oldest[a] != oldest[b])
      && (forall i, x :: 0 <= i < |oldest| && 0 <= x < |s.keys| && x !in oldest ==>
            noisy[x] <= noisy[oldest[i]] && ages[x] as real <= ages[oldest[i]] as real + 2.0 * ageNoise)
  {
    var oldest := Oldest(s, query, y, yHat, slots, normalize, noise);
    var ages := Reinforcement(s, query, y, yHat, slots, normalize).ages;
    var noisy := NoisyAges(ages, noise);
    assert IsTopK(noisy, |query|, oldest);
    forall i, x | 0 <= i < |oldest| && 0 <= x < |s.keys| && x !in oldest
      ensures noisy[x] <= noisy[oldest[i]]
      ensures ages[x] as real <= ages[oldest[i]] as real + 2.0 * ageNoise
    {
      assert Ahead(noisy, oldest[i], x);
    }
  }

  // ---------------------------------------------------------------------------
  // The memory object

  class Memory {
    var keys: array<Vector>
    var values: array<int>
    var age: array<nat>

    const memorySize: nat
    const keyDim: nat
    const topK: nat
    const ageNoise: real
    const margin: real

    /** memorySize slots in each array, every key of width keyDim, and at most
        memorySize candidates per query. */
    ghost predicate Valid()
      reads this, keys
    {
      && keys.Length == memorySize && values.Length == memorySize && age.Length == memorySize
      && topK <= memorySize
      && forall j :: 0 <= j < memorySize ==> |keys[j]| == keyDim
    }

    /** The contents of the three arrays. */
    function Contents(): Slots
      reads this, keys, values, age
    {
      Slots(keys[..], values[..], age[..])
    }

    /** __init__: keys are the normalized rows of `gaussian` (the draw of
        torch.randn), every value and every age is 0, and top_k is clamped to
        memory_size. A top_k of 0 is refused, as math.log(0.2 * top_k) fails
        on it. */
    constructor (memorySize: nat, keyDim: nat, gaussian: seq<Vector>, normalize: Normalizer,
                 topK: nat := 256, ageNoise: real := 8.0, margin: real := 0.1)
      requires topK >= 1
      requires |gaussian| == memorySize && Rows(gaussian, keyDim)
      ensures Valid() && fresh(keys) && fresh(values) && fresh(age)
      ensures this.memorySize == memorySize && this.keyDim == keyDim
      ensures this.topK == (if topK < memorySize then topK else memorySize)
      ensures this.ageNoise == ageNoise && this.margin == margin
      ensures Contents().Shaped(memorySize, keyDim)
      ensures keys[..] == Normalized(gaussian, normalize)
      ensures forall j :: 0 <= j < memorySize ==> values[j] == 0 && age[j] == 0
    {
      this.memorySize := memorySize;
      this.keyDim := keyDim;
      this.topK := if topK < memorySize then topK else memorySize;
      this.ageNoise := ageNoise;
      this.margin := margin;
      keys := new Vector[memorySize](j requires 0 <= j < memorySize => normalize(gaussian[j]));
      values := new int[memorySize](j => 0);
      age := new nat[memorySize](j => 0);
    }

    /** Slot j holds a key of maximal similarity to the query row q. */
    ghost predicate MostSimilar(q: Vector, j: int)
      reads this, keys
      requires Valid() && |q| == keyDim
    {
      0 <= j < memorySize && forall j' :: 0 <= j' < memorySize ==> Dot(q, keys[j']) <= Dot(q, keys[j])
    }

    /** y_hat_indices: for each row of the batch, the slot nearest to the
        normalized row. */
    function NearestSlots(x: seq<Vector>, normalize: Normalizer): (slots: seq<nat>)
      reads this, keys
      requires Valid() && 1 <= topK && Rows(x, keyDim)
      ensures |slots| == |x|
      ensures forall i :: 0 <= i < |x| ==> slots[i] < memorySize && MostSimilar(normalize(x[i]), slots[i])
    {
      var ks := keys[..];
      seq(|x|, i requires 0 <= i < |x| => Nearest(normalize(x[i]), ks, topK))
    }

    /** predict(x): each row's prediction is the label stored in a slot
        whose key is most similar to the normalized row. Reads the memory and
        changes nothing. */
    function Predict(x: seq<Vector>, normalize: Normalizer): (yHat: seq<int>)
      reads this, keys, values
      requires Valid() && 1 <= topK && Rows(x, keyDim)
      ensures |yHat| == |x|
      ensures forall i :: 0 <= i < |x| ==>
        exists j :: MostSimilar(normalize(x[i]), j) && yHat[i] == values[j]
    {
      var slots := NearestSlots(x, normalize);
      var vs := values[..];
      var labels := seq(|x|, i requires 0 <= i < |x| => vs[slots[i]]);
      assert forall i :: 0 <= i < |x| ==> MostSimilar(normalize(x[i]), slots[i]) && labels[i] == values[slots[i]];
      labels
    }

    /** The age noise of one update: random_uniform((memory_size, 1),
        -age_noise, age_noise) applied to the samples `unit` of torch.rand. */
    function AgeNoise(unit: seq<real>): (noise: seq<real>)
      requires |unit| == memorySize
      requires forall j :: 0 <= j < |unit| ==> 0.0 <= unit[j] < 1.0
      ensures |noise| == memorySize
      ensures 0.0 <= ageNoise ==> forall j :: 0 <= j < memorySize ==> -ageNoise <= noise[j] <= ageNoise
      ensures 0.0 < ageNoise ==> forall j :: 0 <= j < memorySize ==> noise[j] < ageNoise
    {
      ColumnSize([memorySize]);
      assert [memorySize] + [1] == [memorySize, 1];
      RandomUniform([memorySize, 1], unit, -ageNoise, ageNoise)
    }

    /** update(query, y, y_hat, y_hat_indices): the global tick, the
        reinforcement of correctly retrieved slots, and, when some row is
        mispredicted, the overwrite of the batch-size slots with the largest
        noisy age by the whole batch. */
    method Update(query: seq<Vector>, y: seq<int>, yHat: seq<int>, yHatIndices: seq<nat>,
                  normalize: Normalizer, unit: seq<real>)
      requires Valid() && Rows(query, keyDim)
      requires |y| == |query| && |yHat| == |query| && |yHatIndices| == |query|
      requires forall i :: 0 <= i < |yHatIndices| ==> yHatIndices[i] < memorySize
      requires |unit| == memorySize && forall j :: 0 <= j < |unit| ==> 0.0 <= unit[j] < 1.0
      requires SomeIncorrect(y, yHat) ==> |query| <= memorySize
      modifies keys, values, age
      ensures Valid()
      ensures UpdateArgs(old(Contents()), query, y, yHat, yHatIndices, AgeNoise(unit))
      ensures Contents() == Updated(old(Contents()), query, y, yHat, yHatIndices, normalize, AgeNoise(unit))
    {
      ghost var start := Contents();
      var noise := AgeNoise(unit);
      assert UpdateArgs(start, query, y, yHat, yHatIndices, noise);
      TickAges();
      Reinforce(query, y, yHat, yHatIndices, normalize);
      if yHat != y {
        assert SomeIncorrect(y, yHat);
        var oldest := TopK(NoisyAges(age[..], noise), |query|);
        Evict(query, y, oldest);
      } else {
        assert !SomeIncorrect(y, yHat);
      }
    }

    /** Step 1 of update, self.age += 1: every slot one step older. */
    method TickAges()
      requires Valid()
      modifies age
      ensures Valid()
      ensures Contents() == Tick(old(Contents()))
    {
      forall j | 0 <= j < age.Length {
        age[j] := age[j] + 1;
      }
    }

    /** Step 2 of update: each correctly predicted row blends its query into
        the key of the slot it retrieved, from the keys as they were before the
        step, and resets that slot's age; a later row wins a shared slot. */
    method Reinforce(query: seq<Vector>, y: seq<int>, yHat: seq<int>, yHatIndices: seq<nat>,
                     normalize: Normalizer)
      requires Valid() && Rows(query, keyDim)
      requires |y| == |query| && |yHat| == |query| && |yHatIndices| == |query|
      requires forall i :: 0 <= i < |yHatIndices| ==> yHatIndices[i] < memorySize
      modifies keys, age
      ensures Valid()
      ensures Contents() == Reinforced(old(Contents()), query, y, yHat, yHatIndices, normalize, |query|)
    {
      ghost var start := Contents();
      var snapshot := keys[..];
      var i := 0;
      while i < |query|
        invariant 0 <= i <= |query|
        invariant Valid()
        invariant Contents() == Reinforced(start, query, y, yHat, yHatIndices, normalize, i)
      {
        if yHat[i] == y[i] {
          var slot := yHatIndices[i];
          keys[slot] := normalize(Add(snapshot[slot], query[i]));
          age[slot] := 0;
        }
        i := i + 1;
      }
    }

    /** Step 3 of update, run when some row is mispredicted: row i's query,
        label and age 0 are written to slot oldest[i]. */
    method Evict(query: seq<Vector>, y: seq<int>, oldest: seq<nat>)
      requires Valid() && Rows(query, keyDim)
      requires |y| == |query| && |oldest| == |query|
      requires forall i :: 0 <= i < |oldest| ==> oldest[i] < memorySize
      modifies keys, values, age
      ensures Valid()
      ensures Contents() == Evicted(old(Contents()), query, y, oldest, |query|)
    {
      ghost var start := Contents();
      var p := 0;
      while p < |query|
        invariant 0 <= p <= |query|
        invariant Valid()
        invariant Contents() == Evicted(start, query, y, oldest, p)
      {
        var slot := oldest[p];
        keys[slot] := query[p];
        values[slot] := y[p];
        age[slot] := 0;
        p := p + 1;
      }
    }

    /** query(x, y, predict): the prediction of predict(x), the loss when
        `predict` is false (None otherwise), and always an update of the
        memory with the normalized batch. */
    method Query(x: seq<Vector>, y: seq<int>, normalize: Normalizer, unit: seq<real>, predict: bool := false)
      returns (yHat: seq<int>, loss: Option<real>)
      requires Valid() && 1 <= topK && Rows(x, keyDim) && |y| == |x|
      requires !predict ==> |x| > 0
      requires |unit| == memorySize && forall j :: 0 <= j < |unit| ==> 0.0 <= unit[j] < 1.0
      requires |x| <= memorySize || Predict(x, normalize) == y
      modifies keys, values, age
      ensures Valid()
      ensures yHat == old(Predict(x, normalize))
      ensures UpdateArgs(old(Contents()), Normalized(x, normalize), y, yHat, old(NearestSlots(x, normalize)), AgeNoise(unit))
      ensures Contents() == Updated(old(Contents()), Normalized(x, normalize), y, yHat,
                                    old(NearestSlots(x, normalize)), normalize, AgeNoise(unit))
      ensures loss.None? <==> predict
      ensures !predict ==> loss.value == old(BatchLoss(Contents(), Normalized(x, normalize), y, topK, margin))
    {
      var query := Normalized(x, normalize);
      assert Rows(query, keyDim);
      var indices := NearestSlots(x, normalize);
      yHat := Predict(x, normalize);
      loss := None;
      if !predict {
        loss := Some(BatchLoss(Contents(), query, y, topK, margin));
      }
      assert SomeIncorrect(y, yHat) ==> |query| <= memorySize;
      ghost var pre := Contents();
      Update(query, y, yHat, indices, normalize, unit);
      assert Contents() == Updated(pre, query, y, yHat, indices, normalize, AgeNoise(unit));
    }
  }
}
