/** The training signal of the memory: the masked positive and negative
    scores of a row's top-k candidates, and the margin hinge loss over a batch. */
module Loss {
  import opened Tensor
  import opened Selection

  /** One term of MemoryLoss: clamp(negative - positive + margin, min = 0). */
  function Hinge(positive: real, negative: real, margin: real): (h: real)
    ensures h >= 0.0
    ensures h >= negative - positive + margin
    ensures h == negative - positive + margin || h == 0.0
    ensures h == 0.0 <==> positive >= negative + margin
  {
    if negative - positive + margin > 0.0 then negative - positive + margin else 0.0
  }

  /** MemoryLoss(positive, negative, margin): the mean hinge over the batch.
      The two score vectors must have the same size. */
  function MemoryLoss(positive: seq<real>, negative: seq<real>, margin: real): (loss: real)
    requires |positive| == |negative|
    requires |positive| > 0
    ensures loss >= 0.0
    ensures loss == 0.0 <==> forall i :: 0 <= i < |positive| ==> positive[i] >= negative[i] + margin
  {
    var hinges := seq(|positive|, i requires 0 <= i < |positive| => Hinge(positive[i], negative[i], margin));
    SumNonNegative(hinges);
    assert (forall i :: 0 <= i < |hinges| ==> hinges[i] == 0.0)
       <==> (forall i :: 0 <= i < |positive| ==> positive[i] >= negative[i] + margin) by {
      forall i | 0 <= i < |hinges|
        ensures hinges[i] == 0.0 <==> positive[i] >= negative[i] + margin
      {
        assert hinges[i] == Hinge(positive[i], negative[i], margin);
      }
    }
    Sum(hinges) / (|hinges| as real)
  }

  /** torch.topk(s, 1) read for its value: the largest entry of s. */
  function Largest(s: seq<real>): (m: real)
    requires |s| > 0
    ensures exists j :: 0 <= j < |s| && m == s[j]
    ensures forall j :: 0 <= j < |s| ==> s[j] <= m
  {
    TopKFirstIsArgMax(s, 1);
    s[TopK(s, 1)[0]]
  }

  /** cosine_similarity * mask: a candidate's similarity where its label agrees
      with `target` (when `matching`) or disagrees (when not), and 0 elsewhere. */
  function Masked(similarities: seq<real>, labels: seq<int>, target: int, matching: bool): (m: seq<real>)
    requires |labels| == |similarities|
    ensures |m| == |similarities|
  {
    seq(|similarities|, j requires 0 <= j < |similarities| =>
      if (labels[j] == target) == matching then similarities[j] else 0.0)
  }

  /** The positive score of a row: the best similarity among the candidates
      carrying the row's label, where every other candidate counts as 0. */
  function PositiveScore(similarities: seq<real>, labels: seq<int>, target: int): (p: real)
    requires |labels| == |similarities| > 0
    ensures forall j :: 0 <= j < |labels| && labels[j] == target ==> similarities[j] <= p
    ensures (exists j :: 0 <= j < |labels| && labels[j] != target) ==> 0.0 <= p
    ensures (exists j :: 0 <= j < |labels| && labels[j] == target && p == similarities[j])
         || (exists j :: 0 <= j < |labels| && labels[j] != target && p == 0.0)
    ensures (forall j :: 0 <= j < |labels| ==> labels[j] != target) ==> p == 0.0
  {
    var m := Masked(similarities, labels, target, true);
    var p := Largest(m);
    forall j | 0 <= j < |labels|
      ensures m[j] <= p && m[j] == if (labels[j] == target) == true then similarities[j] else 0.0
    {
    }
    p
  }

  /** The negative score of a row: the best similarity among the candidates
      carrying another label, where every candidate with the row's label counts as 0. */
  function NegativeScore(similarities: seq<real>, labels: seq<int>, target: int): (n: real)
    requires |labels| == |similarities| > 0
    ensures forall j :: 0 <= j < |labels| && labels[j] != target ==> similarities[j] <= n
    ensures (exists j :: 0 <= j < |labels| && labels[j] == target) ==> 0.0 <= n
    ensures (exists j :: 0 <= j < |labels| && labels[j] != target && n == similarities[j])
         || (exists j :: 0 <= j < |labels| && labels[j] == target && n == 0.0)
    ensures (forall j :: 0 <= j < |labels| ==> labels[j] == target) ==> n == 0.0
  {
    var m := Masked(similarities, labels, target, false);
    var n := Largest(m);
    forall j | 0 <= j < |labels|
      ensures m[j] <= n && m[j] == if (labels[j] == target) == false then similarities[j] else 0.0
    {
    }
    n
  }
}
