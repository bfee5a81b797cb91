/**
 The negative acknowledgement's loss list: a sequence of 32-bit words in which a
 word with its top bit set starts a run that the next word ends (inclusively,
 possibly past the highest sequence number), and any other word is one number.
 */
module NegativeAcks {
  import opened MachineWords
  import opened SequenceNumbers
  import opened Bytes
  import opened Packets
  import opened WireFormat
  import opened Codec

  predicate Marked(w: u32) {
    w >= MODULUS
  }

  function Number(w: u32): SeqNum {
    w % MODULUS
  }

  predicate InRun(first: SeqNum, last: SeqNum, n: SeqNum) {
    if first <= last then first <= n <= last
    else (first <= n && n <= MODULUS - 1) || n <= last
  }

  /** What the word at position `i`, with its successor, names. */
  predicate NamedAt(words: seq<u32>, i: nat, n: SeqNum)
    requires i < |words|
  {
    if Marked(words[i]) && i + 1 < |words| then InRun(Number(words[i]), Number(words[i + 1]), n)
    else Number(words[i]) == n
  }

  ghost predicate Names(words: seq<u32>, n: SeqNum) {
    exists i: nat :: i < |words| && NamedAt(words, i, n)
  }

  /** No run is left open at the end, so words can be added without changing the meaning of earlier ones. */
  predicate Closed(words: seq<u32>) {
    words == [] || !Marked(words[|words| - 1])
  }

  lemma NamesNothing()
    ensures forall n: SeqNum :: !Names([], n)
  {
  }

  lemma NamesSingle(words: seq<u32>, n: SeqNum, x: SeqNum)
    requires Closed(words)
    ensures Closed(words + [n])
    ensures Names(words + [n], x) <==> Names(words, x) || x == n
  {
    var more := words + [n];
    forall i: nat | i < |words| ensures NamedAt(more, i, x) <==> NamedAt(words, i, x) {}
    assert NamedAt(more, |words|, x) <==> x == n;
  }

  lemma NamesRun(words: seq<u32>, first: SeqNum, last: SeqNum, x: SeqNum)
    requires Closed(words)
    ensures Closed(words + [first + MODULUS, last])
    ensures Names(words + [first + MODULUS, last], x) <==> Names(words, x) || InRun(first, last, x)
  {
    var more := words + [first + MODULUS, last];
    forall i: nat | i < |words| ensures NamedAt(more, i, x) <==> NamedAt(words, i, x) {}
    assert NamedAt(more, |words|, x) <==> InRun(first, last, x);
    assert NamedAt(more, |words| + 1, x) <==> x == last;
  }

  /** A run between the wire forms of `a` and `b` is the absolute interval, wherever the cycle breaks. */
  lemma RunIsInterval(a: int, b: int, x: SeqNum)
    requires a <= b < a + MODULUS - 1
    ensures InRun(Wire(a), Wire(b), x) <==> Distance(a, x) <= b - a
  {
    RangeIsDistance(a, b + 1, x);
    NextIsSuccessor(b);
  }

  class NegativeAck {
    var header: Header
    var words: seq<u32>

    constructor (destination: u32)
      ensures words == [] && header == Header(0, 0, destination)
    {
      header, words := Header(0, 0, destination), [];
    }

    method AddSequenceNumber(n: SeqNum)
      modifies this`words
      ensures words == old(words) + [n]
      ensures old(Closed(words)) ==> Closed(words)
      ensures old(Closed(words)) ==> forall x: SeqNum :: Names(words, x) <==> Names(old(words), x) || x == n
    {
      words := words + [n];
      if old(Closed(words)) {
        forall x: SeqNum ensures Names(words, x) <==> Names(old(words), x) || x == n {
          NamesSingle(old(words), n, x);
        }
      }
    }

    /** Setting the top bit of a 31-bit number adds 2^31. */
    method AddSequenceNumbers(first: SeqNum, last: SeqNum)
      modifies this`words
      ensures words == old(words) + [first + MODULUS, last]
      ensures old(Closed(words)) ==> Closed(words)
      ensures old(Closed(words)) ==>
                forall x: SeqNum :: Names(words, x) <==> Names(old(words), x) || InRun(first, last, x)
    {
      words := words + [first + MODULUS];
      words := words + [last];
      assert words == old(words) + [first + MODULUS, last];
      if old(Closed(words)) {
        forall x: SeqNum ensures Names(words, x) <==> Names(old(words), x) || InRun(first, last, x) {
          NamesRun(old(words), first, last, x);
        }
      }
    }

    method ContainsSequenceNumber(n: SeqNum) returns (found: bool)
      ensures found <==> Names(words, n)
    {
      var i := 0;
      while i < |words|
        invariant i <= |words|
        invariant forall j: nat :: j < i ==> !NamedAt(words, j, n)
      {
        if words[i] >= MODULUS && i + 1 < |words| {
          var first, last := words[i] % MODULUS, words[i + 1] % MODULUS;
          if first <= last {
            if first <= n && n <= last {
              assert NamedAt(words, i, n);
              return true;
            }
          } else {
            if (first <= n && n <= MODULUS - 1) || n <= last {
              assert NamedAt(words, i, n);
              return true;
            }
          }
        } else {
          if words[i] % MODULUS == n {
            assert NamedAt(words, i, n);
            return true;
          }
        }
        i := i + 1;
      }
      return false;
    }

    method Encode(buffer: array<byte>) returns (size: nat)
      modifies buffer
      ensures buffer.Length < HEADER_SIZE + 4 * |words| ==> size == 0 && buffer[..] == old(buffer[..])
      ensures buffer.Length >= HEADER_SIZE + 4 * |words| ==>
                size == HEADER_SIZE + 4 * |words| && Spliced(old(buffer[..]), 0, NackBytes(header, words), buffer[..])
    {
      hide WordBytes, Spliced, HeaderBytes;
      if buffer.Length < HEADER_SIZE + |words| * 4 {
        return 0;
      }
      ghost var orig := buffer[..];
      var n := EncodeBase(NEGATIVE_ACK_TYPE, header, buffer);
      ghost var head := HeaderBytes(NEGATIVE_ACK_TYPE, header);
      NoWords(head);
      var i := 0;
      while i < |words|
        invariant i <= |words|
        invariant Spliced(orig, 0, head + WordBytes(words[..i]), buffer[..])
      {
        AppendWord(words[i], buffer, HEADER_SIZE + i * 4, orig, head, words[..i]);
        assert words[..i] + [words[i]] == words[..i + 1];
        i := i + 1;
      }
      assert words[..i] == words;
      return HEADER_SIZE + |words| * 4;
    }

    method Decode(b: seq<byte>) returns (ok: bool)
      modifies this
      ensures match DecodeNack(b)
              case Some((h, ws)) => ok && header == h && words == ws
              case None => !ok && header == old(header) && words == old(words)
    {
      hide U32Of, IsValidBase, DecodeBase;
      if !IsNack(b) {
        return false;
      }
      header := DecodeBase(b);
      var length := |b| - HEADER_SIZE;
      words := [];
      var i := 0;
      while i < length
        invariant i == 4 * |words| <= length
        invariant words == NackWords(b)[..|words|] && header == DecodeBase(b)
      {
        var value := U32At(b, HEADER_SIZE + i);
        words := words + [value];
        i := i + 4;
      }
      return true;
    }
  }
}
