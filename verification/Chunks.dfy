/** A byte stream cut into the parts of a multipart upload, and what makes that cut unique. */
module Chunks {

  newtype byte = x: int | 0 <= x < 256

  /** Full chunks, then what is left; one empty chunk when there is nothing. */
  function Cut(data: seq<byte>, size: nat): seq<seq<byte>>
    requires size > 0
    decreases |data|
  {
    if |data| <= size then [data] else [data[..size]] + Cut(data[size..], size)
  }

  function Concat(parts: seq<seq<byte>>): seq<byte> {
    if parts == [] then [] else parts[0] + Concat(parts[1..])
  }

  /** All chunks but the last are exactly full; the last may be empty only when it is alone. */
  predicate WellCut(parts: seq<seq<byte>>, size: nat) {
    && |parts| > 0
    && (forall i :: 0 <= i < |parts| - 1 ==> |parts[i]| == size)
    && |parts[|parts| - 1]| <= size
    && (|parts[|parts| - 1]| == 0 ==> |parts| == 1)
  }

  lemma {:induction false} CutIsWellCut(data: seq<byte>, size: nat)
    requires size > 0
    ensures Concat(Cut(data, size)) == data
    ensures WellCut(Cut(data, size), size)
    ensures |Cut(data, size)| == if data == [] then 1 else (|data| + size - 1) / size
    decreases |data|
  {
    var parts := Cut(data, size);
    if |data| <= size {
      assert Concat(parts) == parts[0] + Concat([]);
      assert Concat(parts) == data;
      if data != [] {
        DivisionIsOne(|data|, size);
      }
    } else {
      CutIsWellCut(data[size..], size);
      var rest := Cut(data[size..], size);
      assert parts[1..] == rest;
      assert data[..size] + data[size..] == data;
      forall i | 0 <= i < |parts| - 1 ensures |parts[i]| == size {
        if i > 0 {
          assert parts[i] == rest[i - 1];
        }
      }
      assert parts[|parts| - 1] == rest[|rest| - 1];
      assert |rest| == 1 ==> Concat(rest) == rest[0] + Concat([]);
      DivisionStep(|data|, size);
    }
  }

  lemma DivisionIsOne(n: nat, size: nat)
    requires 0 < n <= size
    ensures (n + size - 1) / size == 1
  {
  }

  lemma DivisionStep(n: nat, size: nat)
    requires n > size > 0
    ensures (n + size - 1) / size == 1 + (n - size + size - 1) / size
  {
    var q, r := (n - 1) / size, (n - 1) % size;
    assert n + size - 1 == (q + 1) * size + r;
    QuotientIs(n + size - 1, size, q + 1, r);
  }

  lemma QuotientIs(n: int, d: int, q: int, r: int)
    requires d > 0 && 0 <= r < d && n == q * d + r
    ensures n / d == q
  {
    var e := n / d - q;
    assert e * d == r - n % d;
    assert e >= 1 ==> e * d >= d;
    assert e <= -1 ==> e * d <= -d;
  }

  /** There is no other way to cut the stream like that. */
  lemma {:induction false} CutIsUnique(parts: seq<seq<byte>>, size: nat)
    requires size > 0 && WellCut(parts, size)
    ensures parts == Cut(Concat(parts), size)
    decreases |parts|
  {
    var data := Concat(parts);
    if |parts| == 1 {
      assert data == parts[0] + Concat([]);
      assert data == parts[0];
    } else {
      var rest := parts[1..];
      assert forall i :: 0 <= i < |rest| ==> rest[i] == parts[i + 1];
      CutIsUnique(rest, size);
      assert data == parts[0] + Concat(rest);
      assert |parts[0]| == size;
      NonEmptyConcat(rest);
      assert data[..size] == parts[0] && data[size..] == Concat(rest);
    }
  }

  lemma {:induction false} NonEmptyConcat(parts: seq<seq<byte>>)
    requires |parts| > 0 && |parts[|parts| - 1]| > 0
    ensures |Concat(parts)| > 0
    decreases |parts|
  {
    if |parts| > 1 {
      assert parts[1..][|parts| - 2] == parts[|parts| - 1];
      NonEmptyConcat(parts[1..]);
    }
  }

  /** What the parts sent so far leave to be sent: nothing once the stream has ended on a boundary. */
  function Rest(sent: bool, data: seq<byte>, size: nat): seq<seq<byte>>
    requires size > 0
  {
    if sent && data == [] then [] else Cut(data, size)
  }

  lemma RestStep(sent: bool, data: seq<byte>, size: nat)
    requires 0 < size <= |data|
    ensures Rest(sent, data, size) == [data[..size]] + Rest(true, data[size..], size)
  {
    if |data| == size {
      assert data[..size] == data;
    }
  }
}
