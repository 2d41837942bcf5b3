/** The hash slot of a key. */
module HashSlot {
  import opened Sequences
  import opened Bits
  import opened Crc16
  import SlotTable

  const OPEN: Byte := 0x7B     // {
  const CLOSE: Byte := 0x7D    // }

  /** Index of the first c at or after i, or the length of the key. */
  function Find(key: seq<Byte>, c: Byte, i: nat): (k: nat)
    requires i <= |key|
    ensures i <= k <= |key| && (forall j | i <= j < k :: key[j] != c) && (k < |key| ==> key[k] == c)
    decreases |key| - i
  {
    if i == |key| || key[i] == c then i else Find(key, c, i + 1)
  }

  /** What is hashed: the text between the first { and the first } after it, if there is any;
      otherwise the whole key. */
  function HashedPart(key: seq<Byte>): seq<Byte> {
    var s := Find(key, OPEN, 0);
    if s == |key| then key
    else
      var e := Find(key, CLOSE, s + 1);
      if e == |key| || e == s + 1 then key else key[s + 1..e]
  }

  /** The low 14 bits of the CRC. */
  function SlotOf(s: seq<Byte>): (slot: nat)
    ensures slot < SlotTable.CLUSTER_SLOTS
  {
    SlotRange();
    Value(CrcByDivision(s)[2..])
  }

  function SlotOfKey(key: seq<Byte>): nat {
    SlotOf(HashedPart(key))
  }

  lemma SlotRange()
    ensures Pow2(14) == 16384
  {
  }

  method KeyHashSlot(key: seq<Byte>) returns (slot: nat)
    ensures slot == SlotOfKey(key) < SlotTable.CLUSTER_SLOTS
  {
    hide CrcByDivision, Pow2, Value;
    SlotRange();
    var s := 0;
    while s < |key| && key[s] != OPEN
      invariant 0 <= s <= |key| && Find(key, OPEN, 0) == Find(key, OPEN, s)
    {
      s := s + 1;
    }
    var crc;
    if s == |key| {
      crc := ComputeCrc16(key);
      return Value(crc[2..]);
    }
    var e := s + 1;
    while e < |key| && key[e] != CLOSE
      invariant s + 1 <= e <= |key| && Find(key, CLOSE, s + 1) == Find(key, CLOSE, e)
    {
      e := e + 1;
    }
    if e == |key| || e == s + 1 {
      crc := ComputeCrc16(key);
      return Value(crc[2..]);
    }
    crc := ComputeCrc16(key[s + 1..e]);
    return Value(crc[2..]);
  }

  lemma FindFirst(key: seq<Byte>, c: Byte, i: nat, k: nat)
    requires i <= k < |key| && key[k] == c && forall j | i <= j < k :: key[j] != c
    ensures Find(key, c, i) == k
  {
  }

  function Tagged(prefix: seq<Byte>, tag: seq<Byte>, suffix: seq<Byte>): seq<Byte> {
    prefix + [OPEN] + tag + [CLOSE] + suffix
  }

  lemma HashesTag(prefix: seq<Byte>, tag: seq<Byte>, suffix: seq<Byte>)
    requires OPEN !in prefix && CLOSE !in tag && tag != []
    ensures HashedPart(Tagged(prefix, tag, suffix)) == tag
  {
    var key := Tagged(prefix, tag, suffix);
    var s, e := |prefix|, |prefix| + 1 + |tag|;
    forall j | 0 <= j < s ensures key[j] != OPEN { assert key[j] == prefix[j]; }
    FindFirst(key, OPEN, 0, s);
    forall j | s + 1 <= j < e ensures key[j] != CLOSE { assert key[j] == tag[j - s - 1]; }
    FindFirst(key, CLOSE, s + 1, e);
    assert key[s + 1..e] == tag by {
      forall j | 0 <= j < |tag| ensures key[s + 1..e][j] == tag[j] { assert key[s + 1 + j] == tag[j]; }
    }
  }

  /** Any two keys with the same tag in their first braces are in the same slot, which is also that of
      the tag as a key. */
  lemma SameTagSameSlot(prefix: seq<Byte>, suffix: seq<Byte>, prefix': seq<Byte>, suffix': seq<Byte>, tag: seq<Byte>)
    requires OPEN !in prefix && OPEN !in prefix' && CLOSE !in tag && tag != []
    ensures SlotOfKey(Tagged(prefix, tag, suffix)) == SlotOfKey(Tagged(prefix', tag, suffix')) == SlotOfKey(tag)
  {
    hide SlotOf;
    HashesTag(prefix, tag, suffix);
    HashesTag(prefix', tag, suffix');
    HashedWhole(tag);
  }

  /** Exactly the other keys are hashed whole: no braces, no closing one, or nothing inside. */
  lemma HashedWhole(key: seq<Byte>)
    requires forall s, e | 0 <= s < e < |key| && key[s] == OPEN && key[e] == CLOSE
                           && OPEN !in key[..s] && CLOSE !in key[s + 1..e] :: e == s + 1
    ensures HashedPart(key) == key
  {
  }
}
