/** Store keys of bids and of the bidder index (types/keys.go), byte by byte. */
module Keys {
  import opened Types

  type Key = seq<byte>

  const BID_KEY_PREFIX: byte := 0x31
  const BID_INDEX_KEY_PREFIX: byte := 0x32

  // ----- Big-endian numbers

  function Pow256(k: nat): nat {
    if k == 0 then 1 else 256 * Pow256(k - 1)
  }

  function BigEndian(n: nat, k: nat): (r: Key)
    ensures |r| == k
  {
    if k == 0 then [] else BigEndian(n / 256, k - 1) + [(n % 256) as byte]
  }

  function Number(key: Key): nat {
    if key == [] then 0 else 256 * Number(key[..|key| - 1]) + key[|key| - 1] as nat
  }

  lemma {:induction false} NumberOfBigEndian(n: nat, k: nat)
    requires n < Pow256(k)
    ensures Number(BigEndian(n, k)) == n
  {
    if k > 0 {
      NumberOfBigEndian(n / 256, k - 1);
      assert BigEndian(n, k)[..k - 1] == BigEndian(n / 256, k - 1);
    }
  }

  predicate IsUint64(n: nat) {
    n < Pow256(8)
  }

  /** `sdk.Uint64ToBigEndian`. */
  function Uint64(n: nat): (r: Key)
    ensures |r| == 8
  {
    BigEndian(n, 8)
  }

  // ----- Keys

  function BidKey(auctionId: nat, bidId: nat): Key {
    [BID_KEY_PREFIX] + Uint64(auctionId) + Uint64(bidId)
  }

  function BidsByAuctionPrefix(auctionId: nat): Key {
    [BID_KEY_PREFIX] + Uint64(auctionId)
  }

  function LengthPrefixed(a: Addr): Key
    requires ValidAddr(a)
  {
    [|a| as byte] + a
  }

  function BidIndexPrefix(bidder: Addr): Key
    requires ValidAddr(bidder)
  {
    [BID_INDEX_KEY_PREFIX] + LengthPrefixed(bidder)
  }

  function BidIndexKey(bidder: Addr, auctionId: nat, bidId: nat): Key
    requires ValidAddr(bidder)
  {
    BidIndexPrefix(bidder) + Uint64(auctionId) + Uint64(bidId)
  }

  /** `sdk.BigEndianToUint64(key[offset:])`; slicing or reading past the end panics. */
  function ReadUint64(key: Key, offset: nat): Option<nat> {
    if offset > |key| then None
    else if offset == |key| then Some(0)
    else if offset + 8 > |key| then None
    else Some(Number(key[offset..offset + 8]))
  }

  /** `ParseBidIndexKey`; its offsets are computed in bytes, so they wrap at 256. */
  function ParseBidIndexKey(key: Key): Option<(nat, nat)> {
    if |key| < 2 || key[0] != BID_INDEX_KEY_PREFIX then None else
      var addrLen := key[1] as nat;
      var auctionId, bidId := ReadUint64(key, (2 + addrLen) % 256), ReadUint64(key, (2 + addrLen + 8) % 256);
      if auctionId.Some? && bidId.Some? then Some((auctionId.value, bidId.value)) else None
  }

  // ----- What the keys guarantee

  /** The layout of both keys: a prefix byte, for the index the length and the bytes of the address, and the two ids. */
  lemma KeyLayout(bidder: Addr, a: nat, b: nat)
    requires ValidAddr(bidder) && IsUint64(a) && IsUint64(b)
    ensures var key := BidKey(a, b);
            |key| == 17 && key[0] == 0x31 && Number(key[1..9]) == a && Number(key[9..]) == b
    ensures var key, n := BidIndexKey(bidder, a, b), |bidder|;
            && |key| == n + 18 && key[0] == 0x32 && key[1] as nat == n && key[2..2 + n] == bidder
            && Number(key[2 + n..10 + n]) == a && Number(key[10 + n..]) == b
  {
    var key, index, n := BidKey(a, b), BidIndexKey(bidder, a, b), |bidder|;
    assert key[1..9] == Uint64(a) && key[9..] == Uint64(b);
    assert index[2 + n..10 + n] == Uint64(a) && index[10 + n..] == Uint64(b);
    NumberOfBigEndian(a, 8);
    NumberOfBigEndian(b, 8);
  }

  lemma Uint64Injective(m: nat, n: nat)
    requires IsUint64(m) && IsUint64(n) && Uint64(m) == Uint64(n)
    ensures m == n
  {
    NumberOfBigEndian(m, 8);
    NumberOfBigEndian(n, 8);
  }

  /** Different bids never share a primary key. */
  lemma BidKeyInjective(a: nat, b: nat, a': nat, b': nat)
    requires IsUint64(a) && IsUint64(b) && IsUint64(a') && IsUint64(b')
    requires BidKey(a, b) == BidKey(a', b')
    ensures a == a' && b == b'
  {
    assert BidKey(a, b)[1..9] == Uint64(a) && BidKey(a, b)[9..] == Uint64(b);
    assert BidKey(a', b')[1..9] == Uint64(a') && BidKey(a', b')[9..] == Uint64(b');
    Uint64Injective(a, a');
    Uint64Injective(b, b');
  }

  /** Iterating over an auction's prefix meets that auction's bids and no others. */
  lemma AuctionPrefixSelects(a: nat, a': nat, b': nat)
    requires IsUint64(a) && IsUint64(a')
    ensures BidsByAuctionPrefix(a) <= BidKey(a', b') <==> a == a'
  {
    if BidsByAuctionPrefix(a) <= BidKey(a', b') {
      assert BidKey(a', b')[1..9] == Uint64(a') && BidsByAuctionPrefix(a)[1..9] == Uint64(a);
      assert BidKey(a', b')[..9] == BidsByAuctionPrefix(a);
      Uint64Injective(a, a');
    }
  }

  /** The length byte keeps the index entries of different bidders apart. */
  lemma IndexPrefixSelects(x: Addr, y: Addr, a: nat, b: nat)
    requires ValidAddr(x) && ValidAddr(y)
    ensures BidIndexPrefix(x) <= BidIndexKey(y, a, b) <==> x == y
  {
    var key := BidIndexKey(y, a, b);
    assert key[1] == |y| as byte && key[2..2 + |y|] == y;
    if BidIndexPrefix(x) <= key {
      assert BidIndexPrefix(x)[1] == |x| as byte;
      assert key[..2 + |x|] == BidIndexPrefix(x);
      assert BidIndexPrefix(x)[2..] == x;
    }
  }

  lemma ParseInverts(bidder: Addr, a: nat, b: nat)
    requires ValidAddr(bidder) && |bidder| <= 245 && IsUint64(a) && IsUint64(b)
    ensures ParseBidIndexKey(BidIndexKey(bidder, a, b)) == Some((a, b))
  {
    var key, n := BidIndexKey(bidder, a, b), |bidder|;
    KeyLayout(bidder, a, b);
    assert key[10 + n..18 + n] == key[10 + n..];
    assert ReadUint64(key, 2 + n) == Some(a) && ReadUint64(key, 10 + n) == Some(b);
  }

  /** Eight bytes of the bidder's own prefix, read as a number. */
  function PrefixNumber(bidder: Addr, offset: nat): nat
    requires ValidAddr(bidder) && offset + 8 <= 2 + |bidder|
  {
    Number(BidIndexPrefix(bidder)[offset..offset + 8])
  }

  /** The bid id that is read from any index key of a bidder with more than 245 address bytes. */
  function WrappedBidId(bidder: Addr): nat
    requires ValidAddr(bidder) && |bidder| > 245
  {
    PrefixNumber(bidder, |bidder| - 246)
  }

  /** The auction id that is read from such a key; it wraps only from 254 bytes on. */
  function WrappedAuctionId(bidder: Addr, a: nat): nat
    requires ValidAddr(bidder) && |bidder| > 245
  {
    if |bidder| <= 253 then a else PrefixNumber(bidder, |bidder| - 254)
  }

  lemma ReadsPrefix(bidder: Addr, a: nat, b: nat, offset: nat)
    requires ValidAddr(bidder) && offset + 8 <= 2 + |bidder|
    ensures ReadUint64(BidIndexKey(bidder, a, b), offset) == Some(PrefixNumber(bidder, offset))
  {
    var key, prefix := BidIndexKey(bidder, a, b), BidIndexPrefix(bidder);
    assert key[offset..offset + 8] == prefix[offset..offset + 8];
  }

  /** From 246 bytes on, the offset of the bid id has wrapped into the address, so the bid id is not read at all. */
  lemma ParseLong(bidder: Addr, a: nat, b: nat)
    requires ValidAddr(bidder) && |bidder| > 245 && IsUint64(a)
    ensures ParseBidIndexKey(BidIndexKey(bidder, a, b)) == Some((WrappedAuctionId(bidder, a), WrappedBidId(bidder)))
  {
    var key, n := BidIndexKey(bidder, a, b), |bidder|;
    assert key[1] as nat == n;
    assert (2 + n + 8) % 256 == n - 246;
    ReadsPrefix(bidder, a, b, n - 246);
    if n <= 253 {
      assert key[2 + n..10 + n] == Uint64(a);
      NumberOfBigEndian(a, 8);
    } else {
      assert (2 + n) % 256 == n - 254;
      ReadsPrefix(bidder, a, b, n - 254);
    }
  }

  /** `ParseBidIndexKey` inverts `GetBidIndexKey` for all ids exactly when the address has at most 245 bytes. */
  lemma ParseInvertsIff(bidder: Addr)
    requires ValidAddr(bidder)
    ensures (forall a: nat, b: nat :: IsUint64(a) && IsUint64(b) ==>
               ParseBidIndexKey(BidIndexKey(bidder, a, b)) == Some((a, b)))
       <==> |bidder| <= 245
  {
    if |bidder| <= 245 {
      forall a: nat, b: nat | IsUint64(a) && IsUint64(b)
        ensures ParseBidIndexKey(BidIndexKey(bidder, a, b)) == Some((a, b))
      {
        ParseInverts(bidder, a, b);
      }
    } else {
      ParseLong(bidder, 0, 0);
      ParseLong(bidder, 0, 1);
      assert IsUint64(0) && IsUint64(1);
    }
  }
}
