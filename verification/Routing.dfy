/** Which partition a key belongs to, wherever it is computed: the sender's balancer, the owner's
    ownership test and the address replies are read from. */
module Routing {

  import opened Wrappers

  type Byte = b: int | 0 <= b < 256

  /** A uuid: sixteen bytes. */
  type Uuid = u: seq<Byte> | |u| == 16 witness seq(16, _ => 0)

  const WORD: nat := 0x1_0000_0000_0000_0000

  /** The big-endian value of a byte string. */
  function BigEndian(bytes: seq<Byte>): nat
    decreases |bytes|
  {
    if bytes == [] then 0 else BigEndian(bytes[..|bytes| - 1]) * 256 + bytes[|bytes| - 1]
  }

  lemma {:induction false} BigEndianBound(bytes: seq<Byte>)
    ensures BigEndian(bytes) < Power256(|bytes|)
    decreases |bytes|
  {
    if bytes != [] {
      BigEndianBound(bytes[..|bytes| - 1]);
    }
  }

  function Power256(n: nat): nat {
    if n == 0 then 1 else 256 * Power256(n - 1)
  }

  lemma {:induction false} Power256Grows(m: nat, n: nat)
    requires m <= n
    ensures Power256(m) <= Power256(n)
    decreases n - m
  {
    if m < n {
      Power256Grows(m, n - 1);
    }
  }

  /** The partition (0..n-1) owning `key`: its first eight bytes, big-endian, modulo n. */
  function PartitionOf(key: Uuid, n: nat): (p: nat)
    requires n > 0
    ensures p < n
  {
    BigEndian(key[..8]) % n
  }

  /** The loop over the eight bytes in a 64-bit word: shifting left drops what leaves the word, and
      nothing ever does. */
  method ComputePartition(key: Uuid, n: nat) returns (p: nat)
    requires n > 0
    ensures p == PartitionOf(key, n)
  {
    var v: nat := 0;
    for i := 0 to 8
      invariant v == BigEndian(key[..i])
    {
      BigEndianBound(key[..i]);
      Power256Grows(i, 7);
      assert Power256(7) * 256 == WORD by {
        assert Power256(2) == 0x1_0000 && Power256(4) == 0x1_0000_0000 && Power256(7) == 0x100_0000_0000_0000;
      }
      assert key[..i + 1][..i] == key[..i];
      v := v * 256 % WORD + key[i];
    }
    p := v % n;
  }

  /** The partition a message is written to, of those the topic has; a key that is no uuid goes to
      the first. */
  function Balance(key: Option<Uuid>, partitions: seq<nat>): (p: nat)
    requires partitions != []
    ensures p in partitions
  {
    if key.None? then partitions[0] else partitions[PartitionOf(key.value, |partitions|)]
  }

  /** The partitions of a topic of n. */
  function Numbered(n: nat): (s: seq<nat>)
    ensures |s| == n && forall i :: 0 <= i < n ==> s[i] == i
  {
    seq(n, i => i)
  }

  /** The key of a thing known by name: the parts joined by zero characters, hashed. */
  function NameKey(hash: string -> Uuid, parts: seq<string>): Uuid {
    hash(Joined(parts))
  }

  function Joined(parts: seq<string>): string {
    if parts == [] then "" else if |parts| == 1 then parts[0] else Joined(parts[..|parts| - 1]) + ['\0'] + parts[|parts| - 1]
  }

  /** The loop that joins them. */
  method ComputeName(parts: seq<string>) returns (name: string)
    ensures name == Joined(parts)
  {
    name := "";
    for i := 0 to |parts|
      invariant name == Joined(parts[..i])
    {
      assert parts[..i + 1][..i] == parts[..i];
      if i > 0 {
        name := name + ['\0'];
      }
      name := name + parts[i];
    }
    assert parts[..|parts|] == parts;
  }

  function ReplyKey(hash: string -> Uuid, replica: string): Uuid {
    NameKey(hash, ["replica", replica])
  }

  /** The partition of the replies topic a replica reads. */
  function ReplyPartition(hash: string -> Uuid, replica: string, n: nat): nat
    requires n > 0
  {
    PartitionOf(ReplyKey(hash, replica), n)
  }

  /** One mapping everywhere: a command lands on the partition whose owner answers for its key, and
      a reply on the partition its addressee reads. */
  lemma WrittenWhereRead(hash: string -> Uuid, key: Uuid, replica: string, n: nat)
    requires n > 0
    ensures Balance(Some(key), Numbered(n)) == PartitionOf(key, n) < n
    ensures Balance(Some(ReplyKey(hash, replica)), Numbered(n)) == ReplyPartition(hash, replica, n)
  {
    assert Numbered(n)[PartitionOf(key, n)] == PartitionOf(key, n);
    assert Numbered(n)[ReplyPartition(hash, replica, n)] == ReplyPartition(hash, replica, n);
  }
}
