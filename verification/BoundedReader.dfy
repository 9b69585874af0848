/** Streaming a member under its own byte limit and a budget shared with the members read before it. */
module BoundedReader {
  import opened Base
  import opened Ordering

  const CHUNK_BYTES := 64 * 1024

  datatype ReadError = MemberTooLarge | TotalTooLarge

  /** What a bounded read answers, in terms of the data alone. */
  function BoundedRead(data: Bytes, limit: nat, remaining: nat): Result<Bytes, ReadError> {
    if |data| <= limit && |data| <= remaining then Ok(data)
    else if limit <= remaining then Err(MemberTooLarge)
    else Err(TotalTooLarge)
  }

  /** A readable stream. A read returns between one and `size` bytes, as it pleases, until the end. */
  class ByteStream {
    const data: Bytes
    var position: nat

    ghost predicate Valid()
      reads this
    {
      position <= |data|
    }

    constructor (data: Bytes)
      ensures this.data == data && position == 0 && Valid()
    {
      this.data, position := data, 0;
    }

    method Read(size: int) returns (chunk: Bytes)
      requires Valid() && size > 0
      modifies this
      ensures Valid() && old(position) <= position <= old(position) + size
      ensures chunk == data[old(position)..position]
      ensures chunk == [] <==> old(position) == |data|
    {
      if position == |data| {
        return [];
      }
      var most := Min(size, |data| - position);
      assert 1 <= most <= |data| - position;
      var n :| 1 <= n <= most;
      chunk := data[position..position + n];
      position := position + n;
    }
  }

  /** The bytes that may still be read, shared by all members of one archive. */
  class ByteBudget {
    var remaining: int

    constructor (remaining: nat)
      ensures this.remaining == remaining
    {
      this.remaining := remaining;
    }
  }

  /** The streaming loop, for any way the stream cuts its data into chunks: it asks for a positive number
      of bytes every time, accepts exactly the members within both bounds, hands every byte on once,
      charges the budget exactly, and consumes one byte past the tighter bound before it refuses. */
  method ReadMember(stream: ByteStream, limit: nat, budget: ByteBudget) returns (r: Result<Bytes, ReadError>)
    requires stream.Valid() && stream.position == 0 && budget.remaining >= 0
    modifies stream, budget
    ensures r == BoundedRead(stream.data, limit, old(budget.remaining))
    ensures r.Ok? ==> budget.remaining == old(budget.remaining) - |stream.data| && stream.position == |stream.data|
    ensures r.Err? ==> stream.position == Min(limit, old(budget.remaining)) + 1 <= |stream.data|
  {
    var actual := 0;
    var content: Bytes := [];
    while true
      invariant stream.Valid() && stream.position == actual
      invariant 0 <= actual <= limit && budget.remaining == old(budget.remaining) - actual >= 0
      invariant content == stream.data[..actual]
      decreases |stream.data| - actual
    {
      var chunk := stream.Read(Min(CHUNK_BYTES, Min(limit - actual + 1, budget.remaining + 1)));
      if chunk == [] {
        break;
      }
      actual := actual + |chunk|;
      if actual > limit {
        return Err(MemberTooLarge);
      }
      budget.remaining := budget.remaining - |chunk|;
      if budget.remaining < 0 {
        return Err(TotalTooLarge);
      }
      content := content + chunk;
    }
    assert stream.data[..actual] == stream.data;
    r := Ok(content);
  }

  // ---------- Several members, one budget ----------

  function Length(data: Bytes): nat {
    |data|
  }

  /** Reading members one after another against the shared budget. */
  function ReadAll(members: seq<Bytes>, limit: nat, remaining: nat): Result<nat, ReadError> {
    if members == [] then Ok(remaining)
    else
      match BoundedRead(members[0], limit, remaining)
      case Err(error) => Err(error)
      case Ok(data) => ReadAll(members[1..], limit, remaining - |data|)
  }

  /** A run is accepted exactly when each member is within its limit and all together within the budget. */
  lemma {:induction false} ReadAllIff(members: seq<Bytes>, limit: nat, remaining: nat)
    ensures ReadAll(members, limit, remaining).Ok? <==>
      (forall m :: m in members ==> |m| <= limit) && SumBy(Length, members) <= remaining
    ensures ReadAll(members, limit, remaining).Ok? ==>
      ReadAll(members, limit, remaining).value == remaining - SumBy(Length, members)
  {
    if members != [] {
      assert members == [members[0]] + members[1..];
      if BoundedRead(members[0], limit, remaining).Ok? {
        ReadAllIff(members[1..], limit, remaining - |members[0]|);
      }
    }
  }

  /** So acceptance does not depend on the order of the members. */
  lemma ReadAllIgnoresOrder(a: seq<Bytes>, b: seq<Bytes>, limit: nat, remaining: nat)
    requires multiset(a) == multiset(b)
    ensures ReadAll(a, limit, remaining).Ok? <==> ReadAll(b, limit, remaining).Ok?
  {
    ReadAllIff(a, limit, remaining);
    ReadAllIff(b, limit, remaining);
    SumIgnoresOrder(Length, a, b);
    assert forall m :: m in a <==> m in multiset(a);
    assert forall m :: m in b <==> m in multiset(b);
  }
}
