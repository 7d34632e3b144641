/** The disk of memide.c: an array of blocks on which one block write is one atomic step.
    A block is seen as its BSIZE / sizeof(uint) words, which is how log.c reads its header block. */
module Disk {

  const BSIZE: nat := 2048
  const WORDS: nat := 512          // BSIZE / sizeof(uint)

  type Block = b: seq<nat> | |b| == WORDS witness seq(WORDS, _ => 0)
  type Image = seq<Block>

  datatype Write = Write(at: nat, data: Block)

  /** One block write; a write past the end of the disk is a panic in iderw and changes nothing. */
  function Store(d: Image, w: Write): (r: Image)
    ensures |r| == |d|
  {
    if w.at < |d| then d[w.at := w.data] else d
  }

  function Apply(d: Image, ws: seq<Write>): (r: Image)
    ensures |r| == |d|
  {
    if ws == [] then d else Store(Apply(d, ws[..|ws| - 1]), ws[|ws| - 1])
  }

  ghost predicate Misses(ws: seq<Write>, b: nat) {
    forall t :: 0 <= t < |ws| ==> ws[t].at != b
  }

  ghost predicate DistinctTargets(ws: seq<Write>) {
    forall t, u :: 0 <= t < u < |ws| ==> ws[t].at != ws[u].at
  }

  lemma {:induction false} ApplyConcat(d: Image, a: seq<Write>, b: seq<Write>)
    ensures Apply(d, a + b) == Apply(Apply(d, a), b)
    decreases |b|
  {
    if b == [] {
      assert a + b == a;
    } else {
      var last := |b| - 1;
      assert (a + b)[..|a + b| - 1] == a + b[..last];
      ApplyConcat(d, a, b[..last]);
    }
  }

  lemma ApplyOneMore(d: Image, ws: seq<Write>, w: Write)
    ensures Apply(d, ws + [w]) == Store(Apply(d, ws), w)
  {
    assert (ws + [w])[..|ws|] == ws;
  }

  /** One more write of a sequence, seen both on the disk and in the record of writes. */
  lemma ApplyPrefix(d: Image, before: seq<Write>, ws: seq<Write>, t: nat)
    requires t < |ws|
    ensures Apply(d, ws[..t + 1]) == Store(Apply(d, ws[..t]), ws[t])
    ensures before + ws[..t + 1] == before + ws[..t] + [ws[t]]
  {
    assert ws[..t + 1] == ws[..t] + [ws[t]];
    ApplyOneMore(d, ws[..t], ws[t]);
  }

  lemma {:induction false} ApplyMisses(d: Image, ws: seq<Write>, b: nat)
    requires b < |d| && Misses(ws, b)
    ensures Apply(d, ws)[b] == d[b]
    decreases |ws|
  {
    if ws != [] {
      ApplyMisses(d, ws[..|ws| - 1], b);
    }
  }

  lemma {:induction false} ApplyHits(d: Image, ws: seq<Write>, t: nat)
    requires t < |ws| && DistinctTargets(ws) && ws[t].at < |d|
    ensures Apply(d, ws)[ws[t].at] == ws[t].data
    decreases |ws|
  {
    var last := |ws| - 1;
    if t < last {
      ApplyHits(d, ws[..last], t);
      assert ws[..last][t] == ws[t];
    }
  }
}
