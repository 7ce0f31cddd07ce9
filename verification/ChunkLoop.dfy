/** The loop that cuts a body slice into DATA frames: how many bytes are left after any number of turns,
    when the loop ends, and which chunks go out. */
module ChunkLoop {
  import opened Numbers
  import opened HttpFrames

  function FrameLimit(maxFrame: int32): int32 {
    if maxFrame <= 0 then 16384 else maxFrame
  }

  /** The size asked of Reserve for n remaining bytes: the length is converted to int32 first. */
  function Want(n: nat, limit: int32): (want: int32)
    ensures want <= n
  {
    Min(Int32(n), limit)
  }

  /** What Reserve grants out of a positive credit of credit + 1; nothing if nothing is asked. */
  function Got(want: int32, credit: nat): nat {
    if want <= 0 then 0 else if credit + 1 < want then credit + 1 else want
  }

  /** One turn: the size of the DATA frame for n remaining bytes. */
  function Piece(n: nat, limit: int32, credit: nat): (size: nat)
    ensures size <= n && (size > 0 <==> Want(n, limit) > 0) && (size > 0 ==> size <= limit && size <= credit + 1)
  {
    Got(Want(n, limit), credit)
  }

  /** A piece is as large as what is left, the frame size and the credit allow; below 2^31 bytes that is the
      smallest of the three. */
  lemma PieceIsLargest(n: nat, limit: int32, credit: nat)
    requires limit > 0
    ensures Int32(n) > 0 ==> Piece(n, limit, credit) == Min(Int32(n), Min(limit, credit + 1))
    ensures Int32(n) <= 0 ==> Piece(n, limit, credit) == 0
    ensures n <= MAX_INT32 ==> Piece(n, limit, credit) == Min(n, Min(limit, credit + 1))
  {
  }

  /** The bytes left of a slice of n after as many turns as there are credits. */
  function Left(n: nat, limit: int32, credits: seq<nat>): nat {
    if credits == [] then n
    else
      var m := Left(n, limit, credits[..|credits|-1]);
      m - Piece(m, limit, credits[|credits|-1])
  }

  /** The same, counting turns: a turn past the last credit takes nothing. */
  function LeftAt(n: nat, limit: int32, credits: seq<nat>, k: nat): nat {
    if k == 0 then n
    else
      var m := LeftAt(n, limit, credits, k - 1);
      if k <= |credits| then m - Piece(m, limit, credits[k-1]) else m
  }

  lemma {:induction false} LeftAtIsLeft(n: nat, limit: int32, credits: seq<nat>, k: nat)
    requires k <= |credits|
    ensures LeftAt(n, limit, credits, k) == Left(n, limit, credits[..k])
  {
    if k > 0 {
      LeftAtIsLeft(n, limit, credits, k - 1);
      assert credits[..k][..k-1] == credits[..k-1];
    }
  }

  /** The sizes of the DATA frames those turns send; no turn is taken once nothing is left. */
  function Sizes(n: nat, limit: int32, credits: seq<nat>): seq<nat> {
    if credits == [] then []
    else
      var init, c := credits[..|credits|-1], credits[|credits|-1];
      var m := Left(n, limit, init);
      Sizes(n, limit, init) + if m == 0 then [] else [Piece(m, limit, c)]
  }

  /** A length of 2^31 or more is at least 2^32 above what its conversion asks for, if that is
      anything; taking some of it moves the conversion down by as much. */
  lemma BigTurn(m: nat, limit: int32, credit: nat)
    requires m > MAX_INT32
    ensures m - Piece(m, limit, credit) > MAX_INT32
    ensures Int32(m - Piece(m, limit, credit)) == Int32(m) - Piece(m, limit, credit)
  {
    Int32Loses(m, Piece(m, limit, credit));
  }

  /** A slice of 2^31 bytes or more is never finished: at least 2^31 bytes are left after any turns. */
  lemma {:induction false} BigIsNeverFinished(n: nat, limit: int32, credits: seq<nat>)
    requires n > MAX_INT32
    ensures Left(n, limit, credits) > MAX_INT32
  {
    if credits != [] {
      var init, c := credits[..|credits|-1], credits[|credits|-1];
      BigIsNeverFinished(n, limit, init);
      BigTurn(Left(n, limit, init), limit, c);
    }
  }

  /** Below 2^31 every turn takes something. */
  lemma {:induction false} SmallShrinks(n: nat, limit: int32, credits: seq<nat>)
    requires n <= MAX_INT32 && limit > 0
    ensures Left(n, limit, credits) == 0 || Left(n, limit, credits) + |credits| <= n
  {
    if credits != [] {
      SmallShrinks(n, limit, credits[..|credits|-1]);
    }
  }

  /** The chunk loop ends on slices below 2^31 bytes, after at most one turn per byte whatever the
      credits, and on no others, however many credits come. */
  lemma ChunkLoopEndsIff(n: nat, limit: int32)
    requires limit > 0
    ensures n <= MAX_INT32 <==> exists credits :: Left(n, limit, credits) == 0
    ensures n <= MAX_INT32 <==> forall credits :: |credits| >= n ==> Left(n, limit, credits) == 0
  {
    var zeros := seq(n, _ => 0);
    if n <= MAX_INT32 {
      forall credits | |credits| >= n
        ensures Left(n, limit, credits) == 0
      {
        SmallShrinks(n, limit, credits);
      }
      assert Left(n, limit, zeros) == 0;
    } else {
      forall credits
        ensures Left(n, limit, credits) != 0
      {
        BigIsNeverFinished(n, limit, credits);
      }
      assert |zeros| >= n;
    }
  }

  /** Once the conversion is not positive, every further turn sends an empty frame. */
  lemma {:induction false} StuckSendsEmptyFrames(n: nat, limit: int32, credits: seq<nat>)
    requires n > 0 && Int32(n) <= 0
    ensures Left(n, limit, credits) == n
    ensures Sizes(n, limit, credits) == seq(|credits|, _ => 0)
  {
    if credits != [] {
      StuckSendsEmptyFrames(n, limit, credits[..|credits|-1]);
    }
  }

  /** Every slice of 2^31 bytes or more comes to that. */
  lemma {:induction false} BigGetsStuck(n: nat, limit: int32, credits: seq<nat>)
    requires n > MAX_INT32 && limit > 0
    ensures Int32(Left(n, limit, credits)) <= 0 || Int32(Left(n, limit, credits)) <= MAX_INT32 - |credits|
    ensures |credits| >= MAX_INT32 ==> Int32(Left(n, limit, credits)) <= 0
  {
    if credits != [] {
      var init, c := credits[..|credits|-1], credits[|credits|-1];
      BigGetsStuck(n, limit, init);
      BigIsNeverFinished(n, limit, init);
      BigTurn(Left(n, limit, init), limit, c);
    }
  }

  /** The run at 2^31: every turn sends an empty DATA frame and the remainder stays. */
  lemma StuckAtTwoToThe31(limit: int32, credits: seq<nat>)
    ensures Left(0x8000_0000, limit, credits) == 0x8000_0000
    ensures Sizes(0x8000_0000, limit, credits) == seq(|credits|, _ => 0)
  {
    assert Int32(0x8000_0000) == MIN_INT32;
    StuckSendsEmptyFrames(0x8000_0000, limit, credits);
  }

  /** Each chunk is within the frame size and its own grant. Chunks are non-empty, except that a slice
      of 2^31 bytes or more comes to a point where only empty ones go out. */
  ghost predicate Fit(sent: seq<Bytes>, size: nat, limit: int32, credits: seq<nat>) {
    forall i :: 0 <= i < |sent| ==> FitAt(sent[i], i, size, limit, credits)
  }

  predicate FitAt(chunk: Bytes, i: nat, size: nat, limit: int32, credits: seq<nat>) {
    && |chunk| <= limit
    && (chunk == [] ==> size > MAX_INT32)
    && (chunk != [] ==> i < |credits| && |chunk| <= credits[i] + 1)
  }
}
