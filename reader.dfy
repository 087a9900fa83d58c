/** The byte-level reads of a track payload: the variable-length quantity of the
    Standard MIDI Files format (seven bits per byte, most significant group
    first, high bit set on every byte but the last) and the errors a read can
    end in. Positions are indices into the payload. */
module Reader {
  import opened Primitives

  datatype DecodeError =
    | /** The payload ended in the middle of a field. */
      TruncatedStream
    | /** A byte in status position belongs to no event class, or is a data
          byte with no running status to reuse. */
      UnknownStatus
    | /** A channel message's data byte has its high bit set. */
      MalformedDataByte

  /** 128 to the power k: the range of a k-byte variable-length quantity. */
  function Pow128(k: nat): (p: nat)
    ensures p >= 1
  {
    if k == 0 then 1 else 128 * Pow128(k - 1)
  }

  /** Reads the rest of a quantity whose groups read so far make up acc; the
      result is the value and the position just past its last byte. */
  function ReadVarintFrom(bs: seq<uint8>, pos: nat, acc: nat): (r: Result<(nat, nat), DecodeError>)
    decreases |bs| - pos
  {
    if pos >= |bs| then Failure(TruncatedStream)
    else if bs[pos] < 0x80 then Success((acc * 128 + bs[pos], pos + 1))
    else ReadVarintFrom(bs, pos + 1, acc * 128 + (bs[pos] - 0x80))
  }

  /** The quantity that starts at pos. */
  function ReadVarint(bs: seq<uint8>, pos: nat): (r: Result<(nat, nat), DecodeError>)
  {
    ReadVarintFrom(bs, pos, 0)
  }

  /** A read stops at the first byte below 0x80, which it consumes, and fails
      exactly when every remaining byte has its continuation bit set. */
  lemma {:induction false} ReadVarintFromExtent(bs: seq<uint8>, pos: nat, acc: nat)
    ensures var r := ReadVarintFrom(bs, pos, acc);
      && (r.Success? ==>
          && pos < r.value.1 <= |bs|
          && bs[r.value.1 - 1] < 0x80
          && (forall k :: pos <= k < r.value.1 - 1 ==> bs[k] >= 0x80))
      && (r.Failure? <==> forall k :: pos <= k < |bs| ==> bs[k] >= 0x80)
      && (r.Failure? ==> r.error == TruncatedStream)
    decreases |bs| - pos
  {
    if pos < |bs| && bs[pos] >= 0x80 {
      ReadVarintFromExtent(bs, pos + 1, acc * 128 + (bs[pos] - 0x80));
    }
  }

  /** One more group shifts the bound by a factor of 128. */
  lemma BoundStep(acc: nat, d: nat, p: nat)
    requires d < 128
    ensures (acc * 128 + d + 1) * p <= (acc + 1) * (128 * p)
  {
    assert (acc + 1) * (128 * p) == (acc * 128 + 128) * p;
  }

  /** A quantity of k bytes is below 128^k, scaled by what was carried in. */
  lemma {:induction false} ReadVarintFromBound(bs: seq<uint8>, pos: nat, acc: nat)
    ensures var r := ReadVarintFrom(bs, pos, acc);
      r.Success? ==> r.value.1 > pos && r.value.0 < (acc + 1) * Pow128(r.value.1 - pos)
    decreases |bs| - pos
  {
    if pos < |bs| && bs[pos] >= 0x80 {
      var acc' := acc * 128 + (bs[pos] - 0x80);
      ReadVarintFromBound(bs, pos + 1, acc');
      var r := ReadVarintFrom(bs, pos + 1, acc');
      if r.Success? {
        var k := r.value.1 - (pos + 1);
        assert r.value.1 - pos == k + 1;
        BoundStep(acc, bs[pos] - 0x80, Pow128(k));
      }
    }
  }

  /** The single-read facts with nothing carried in. */
  lemma ReadVarintExtent(bs: seq<uint8>, pos: nat)
    ensures var r := ReadVarint(bs, pos);
      && (r.Success? ==>
          && pos < r.value.1 <= |bs|
          && bs[r.value.1 - 1] < 0x80
          && (forall k :: pos <= k < r.value.1 - 1 ==> bs[k] >= 0x80)
          && r.value.0 < Pow128(r.value.1 - pos))
      && (r.Failure? <==> forall k :: pos <= k < |bs| ==> bs[k] >= 0x80)
      && (r.Failure? ==> r.error == TruncatedStream)
  {
    ReadVarintFromExtent(bs, pos, 0);
    ReadVarintFromBound(bs, pos, 0);
  }

  /** Reads the quantity at pos byte by byte, as the track reader does before
      every event and for every meta and sysex length. */
  method ReadVariableLengthInteger(bs: seq<uint8>, pos: nat) returns (r: Result<(nat, nat), DecodeError>)
    ensures r == ReadVarint(bs, pos)
  {
    var p := pos;
    var acc: nat := 0;
    while p < |bs| && bs[p] >= 0x80
      invariant ReadVarintFrom(bs, p, acc) == ReadVarint(bs, pos)
      decreases |bs| - p
    {
      acc := acc * 128 + (bs[p] - 0x80);
      p := p + 1;
    }
    if p >= |bs| {
      return Failure(TruncatedStream);
    }
    return Success((acc * 128 + bs[p], p + 1));
  }

  /** The leading groups of a quantity, each with its continuation bit set. */
  function LeadingGroups(m: nat): (bs: seq<uint8>)
    ensures |bs| >= 1
    ensures forall k :: 0 <= k < |bs| ==> bs[k] >= 0x80
  {
    if m < 128 then [m + 0x80] else LeadingGroups(m / 128) + [m % 128 + 0x80]
  }

  /** The shortest encoding of n. */
  function EncodeVarint(n: nat): (bs: seq<uint8>)
    ensures |bs| >= 1 && bs[|bs| - 1] < 0x80
    ensures forall k :: 0 <= k < |bs| - 1 ==> bs[k] >= 0x80
  {
    if n < 128 then [n] else LeadingGroups(n / 128) + [n % 128]
  }

  /** The accumulator after the seven-bit groups of g are shifted into it,
      first byte first. */
  function Shifted(acc: nat, g: seq<uint8>): (r: nat)
    requires forall k :: 0 <= k < |g| ==> g[k] >= 0x80
    ensures r >= acc
    decreases |g|
  {
    if |g| == 0 then acc else Shifted(acc * 128 + (g[0] - 0x80), g[1..])
  }

  /** Reading over continuation bytes shifts each of them into the accumulator. */
  lemma {:induction false} ReadContinuationBytes(bs: seq<uint8>, pos: nat, g: seq<uint8>, acc: nat)
    requires forall k :: 0 <= k < |g| ==> g[k] >= 0x80
    requires pos + |g| <= |bs| && bs[pos..pos + |g|] == g
    ensures ReadVarintFrom(bs, pos, acc) == ReadVarintFrom(bs, pos + |g|, Shifted(acc, g))
    decreases |g|
  {
    if |g| != 0 {
      assert bs[pos] == g[0];
      ContinuationByte(bs, pos, acc);
      assert bs[pos + 1..pos + |g|] == g[1..];
      ReadContinuationBytes(bs, pos + 1, g[1..], acc * 128 + (g[0] - 0x80));
    }
  }

  /** Shifting in one more group at the end multiplies by 128 and adds it. */
  lemma {:induction false} ShiftedSnoc(acc: nat, h: seq<uint8>, b: uint8)
    requires forall k :: 0 <= k < |h| ==> h[k] >= 0x80
    requires b >= 0x80
    ensures Shifted(acc, h + [b]) == Shifted(acc, h) * 128 + (b - 0x80)
    decreases |h|
  {
    if |h| != 0 {
      assert (h + [b])[1..] == h[1..] + [b];
      ShiftedSnoc(acc * 128 + (h[0] - 0x80), h[1..], b);
    }
  }

  /** The leading groups of m hold m in base 128. */
  lemma {:induction false} ShiftedLeadingGroups(acc: nat, m: nat)
    ensures Shifted(acc, LeadingGroups(m)) == acc * Pow128(|LeadingGroups(m)|) + m
    decreases m
  {
    var g := LeadingGroups(m);
    if m < 128 {
      assert g[1..] == [];
    } else {
      var h := LeadingGroups(m / 128);
      var p := Pow128(|h|);
      ShiftedLeadingGroups(acc, m / 128);
      ShiftedSnoc(acc, h, m % 128 + 0x80);
      var q := Pow128(|g|);
      assert q == 128 * p;
      ShiftGroup(acc, p, q, m, m % 128);
    }
  }

  /** A byte with its continuation bit set adds its seven bits and reads on. */
  lemma ContinuationByte(bs: seq<uint8>, pos: nat, acc: nat)
    requires pos < |bs| && bs[pos] >= 0x80
    ensures ReadVarintFrom(bs, pos, acc) == ReadVarintFrom(bs, pos + 1, acc * 128 + (bs[pos] - 0x80))
  {
  }

  /** Appending the low group of m to an accumulator holding its high part. */
  lemma ShiftGroup(acc: nat, p: nat, q: nat, m: nat, d: int)
    requires q == 128 * p && d == m % 128
    ensures (acc * p + m / 128) * 128 + d == acc * q + m
  {
    assert (acc * p + m / 128) * 128 == acc * (128 * p) + (m / 128) * 128;
  }

  /** An encoded quantity that starts at pos is read back, and exactly its
      bytes are consumed. */
  lemma VarintAt(bs: seq<uint8>, pos: nat, n: nat)
    requires pos + |EncodeVarint(n)| <= |bs| && bs[pos..pos + |EncodeVarint(n)|] == EncodeVarint(n)
    ensures ReadVarint(bs, pos) == Success((n, pos + |EncodeVarint(n)|))
  {
    var v := EncodeVarint(n);
    assert bs[pos] == v[0];
    if n >= 128 {
      var g := LeadingGroups(n / 128);
      assert v == g + [n % 128];
      assert bs[pos..pos + |g|] == v[..|g|];
      ReadContinuationBytes(bs, pos, g, 0);
      ShiftedLeadingGroups(0, n / 128);
      assert bs[pos + |g|] == v[|g|];
    }
  }

  /** Decoding an encoded quantity gives back the number and consumes exactly
      its bytes, whatever precedes or follows it. */
  lemma VarintRoundTrip(n: nat, before: seq<uint8>, after: seq<uint8>)
    ensures var bs := before + EncodeVarint(n) + after;
      ReadVarint(bs, |before|) == Success((n, |before| + |EncodeVarint(n)|))
  {
    var bs := before + EncodeVarint(n) + after;
    assert bs[|before|..|before| + |EncodeVarint(n)|] == EncodeVarint(n);
    VarintAt(bs, |before|, n);
  }

  /** The encoding of n takes k bytes or fewer whenever n < 128^k; in
      particular every delta-time up to 0x0FFFFFFF fits in four bytes. */
  lemma {:induction false} LeadingGroupsLength(m: nat, k: nat)
    requires 1 <= k && m < Pow128(k)
    ensures |LeadingGroups(m)| <= k
    decreases m
  {
    if m >= 128 {
      assert m / 128 < Pow128(k - 1);
      LeadingGroupsLength(m / 128, k - 1);
    }
  }

  lemma EncodeVarintLength(n: nat, k: nat)
    requires 1 <= k && n < Pow128(k)
    ensures |EncodeVarint(n)| <= k
  {
    if n >= 128 {
      assert n / 128 < Pow128(k - 1);
      LeadingGroupsLength(n / 128, k - 1);
    }
  }

  lemma DeltaTimeFitsFourBytes(n: nat)
    requires n <= 0x0FFF_FFFF
    ensures 1 <= |EncodeVarint(n)| <= 4
    ensures ReadVarint(EncodeVarint(n), 0) == Success((n, |EncodeVarint(n)|))
  {
    assert Pow128(4) == 0x1000_0000;
    EncodeVarintLength(n, 4);
    VarintRoundTrip(n, [], []);
    assert [] + EncodeVarint(n) + [] == EncodeVarint(n);
  }
}
