/** The log header block: an int n followed by n block numbers (struct logheader, kernel/log.c). */
module LogHeader {
  import opened Layout
  import opened LogAdmission

  predicate ValidHeader(b: Block) {
    WordAt(b, 0) <= LOGSIZE
  }

  /** What read_head copies into log.lh. */
  function HeaderOf(b: Block): (lh: seq<nat>)
    requires ValidHeader(b)
    ensures |lh| == WordAt(b, 0)
  {
    seq(WordAt(b, 0), i requires 0 <= i < WordAt(b, 0) => WordAt(b, 1 + i))
  }

  predicate Encodable(lh: seq<nat>) {
    |lh| <= LOGSIZE && forall k :: 0 <= k < |lh| ==> lh[k] < UINT_LIMIT
  }

  /** The block after the first k entries of write_head's loop. */
  function PutEntries(b: Block, lh: seq<nat>, k: nat): (r: Block)
    requires Encodable(lh) && k <= |lh|
    ensures WordAt(r, 0) == WordAt(b, 0)
    ensures forall i: nat :: i < k ==> WordAt(r, 1 + i) == lh[i]
    ensures forall i: nat :: k < i < NWORDS ==> WordAt(r, i) == WordAt(b, i)
    decreases k
  {
    if k == 0 then b else PutWord(PutEntries(b, lh, k - 1), k, lh[k - 1])
  }

  /** What write_head makes of the header buffer; words past the n entries keep their old value. */
  function PutHeader(b: Block, lh: seq<nat>): (r: Block)
    requires Encodable(lh)
    ensures ValidHeader(r) && HeaderOf(r) == lh
    ensures forall i: nat :: |lh| < i < NWORDS ==> WordAt(r, i) == WordAt(b, i)
  {
    var r := PutEntries(PutWord(b, 0, |lh|), lh, |lh|);
    HeaderIs(r, lh);
    r
  }

  lemma HeaderIs(r: Block, lh: seq<nat>)
    requires Encodable(lh) && WordAt(r, 0) == |lh| && forall i: nat :: i < |lh| ==> WordAt(r, 1 + i) == lh[i]
    ensures ValidHeader(r) && HeaderOf(r) == lh
  {
    hide WordAt;
  }
}
