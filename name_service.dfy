/**
  `useNNSorENS`: the name shown for an address. The hook asks the name
  service's resolver contract for the address's name with a raw `eth_call`,
  decodes the returned ABI-encoded `string` by hand, and caches the answer
  (or the shortened address when there is no name) per address.

  The chain is a parameter: the bytes the call returns (None when it
  fails), and UTF-8 decoding, a partial function from bytes to text (None
  when `toUtf8String` throws).
 */
module NameService {
  import opened Wrappers
  import opened Numerals

  /** The 4-byte selector of the resolver's name-lookup function, as hex. */
  const Selector: string := "0x55ea6c47"

  // ---------------------------------------------------------------------
  // The shortened address

  /** `s.substr(start, length)` for non-negative arguments: the part of the
      string that exists. */
  function Substr(s: string, start: nat, length: nat): (r: string)
    ensures |r| <= length
    ensures start + length <= |s| ==> r == s[start..start + length]
    ensures start < |s| < start + length ==> r == s[start..]
    ensures start >= |s| ==> r == ""
  {
    if start >= |s| then "" else if start + length >= |s| then s[start..] else s[start..start + length]
  }

  /** `[address.substr(0, 4), address.substr(38, 4)].join("...")`. */
  function ShortAddress(address: string): (r: string)
    ensures |address| >= 42 ==> |r| == 11 && r[..4] == address[..4] && r[4..7] == "..." && r[7..] == address[38..42]
    ensures |address| <= 38 ==> r == Substr(address, 0, 4) + "..."
    ensures |r| >= 3
  {
    Substr(address, 0, 4) + "..." + Substr(address, 38, 4)
  }

  // ---------------------------------------------------------------------
  // The reducer

  datatype NsState = NsState(loading: bool, address: string)

  datatype Action = Fetching | Fetched(address: string) | Unknown

  const InitialState: NsState := NsState(false, "")

  /** The hook's reducer. */
  function Reduce(state: NsState, action: Action): (r: NsState)
    ensures action.Fetching? ==> r.loading && r.address == ""
    ensures action.Fetched? ==> !r.loading && r.address == action.address
    ensures action.Unknown? ==> r == state
  {
    match action
    case Fetching => InitialState.(loading := true)
    case Fetched(a) => InitialState.(loading := false, address := a)
    case Unknown => state
  }

  /** The state after a run of actions. */
  function Run(state: NsState, actions: seq<Action>): NsState
    decreases |actions|
  {
    if actions == [] then state else Run(Reduce(state, actions[0]), actions[1..])
  }

  /** Only the last known action counts: the state after a run is the state
      that action gives from the initial state. */
  lemma {:induction false} RunLastKnown(state: NsState, actions: seq<Action>, i: nat)
    requires i < |actions| && !actions[i].Unknown?
    requires forall j :: i < j < |actions| ==> actions[j].Unknown?
    ensures Run(state, actions) == Reduce(InitialState, actions[i])
    decreases |actions|
  {
    if i > 0 {
      RunLastKnown(Reduce(state, actions[0]), actions[1..], i - 1);
    } else {
      RunUnknown(Reduce(state, actions[0]), actions[1..]);
    }
  }

  lemma {:induction false} RunUnknown(state: NsState, actions: seq<Action>)
    requires forall j :: 0 <= j < |actions| ==> actions[j].Unknown?
    ensures Run(state, actions) == state
    decreases |actions|
  {
    if actions != [] {
      RunUnknown(state, actions[1..]);
    }
  }

  // ---------------------------------------------------------------------
  // The call

  /** The call data: the selector, 24 zero digits, and the address without
      its "0x" (`substring(2)`, empty for a shorter string). */
  function Calldata(address: string): (d: string)
    ensures Selector + Repeat('0', 24) <= d
    ensures |address| >= 2 ==> |d| == |address| + 32
  {
    Selector + Repeat('0', 24) + (if |address| >= 2 then address[2..] else "")
  }

  /** For an address as ethers prints it, the call data is the selector
      followed by one 32-byte word holding the address, left-padded with 12
      zero bytes: the ABI encoding of an `address` argument. */
  lemma CalldataIsAbiWord(n: nat)
    requires n < Pow(16, 40)
    ensures Calldata(PaddedHex(n, 40)) == Selector + PaddedHex(n, 64)[2..]
    ensures |Calldata(PaddedHex(n, 40))| == 74
  {
    CalldataOfPadded(n, 40);
  }

  /** The same for any padding width the number fits in. */
  lemma CalldataOfPadded(n: nat, width: nat)
    requires width >= 1 && n < Pow(16, width)
    ensures Calldata(PaddedHex(n, width)) == Selector + PaddedHex(n, width + 24)[2..]
    ensures |Calldata(PaddedHex(n, width))| == width + 34
  {
    PaddedHexLength(n, width);
    PaddedHexWiden(n, width, 24);
    CalldataOfDigits(PaddedHex(n, width), PaddedHex(n, width + 24)[2..]);
  }

  /** The calldata is the selector followed by the address's digits after
      24 zeros, 32 characters longer than the address. */
  lemma CalldataOfDigits(a: string, w: string)
    requires |a| >= 2 && w == Repeat('0', 24) + a[2..]
    ensures Calldata(a) == Selector + w
    ensures |Calldata(a)| == |a| + 32
  {
    AppendAssoc(Selector, Repeat('0', 24), a[2..]);
  }

  /** Concatenation is associative. */
  lemma AppendAssoc<T>(x: seq<T>, y: seq<T>, z: seq<T>)
    ensures x + y + z == x + (y + z)
  {
  }

  /** Widening the padding of a number that fits adds leading zeros. */
  lemma PaddedHexWiden(n: nat, width: nat, extra: nat)
    requires width >= 1 && n < Pow(16, width)
    ensures PaddedHex(n, width + extra)[2..] == Repeat('0', extra) + PaddedHex(n, width)[2..]
  {
    var h := ToRadix(n, 16);
    DigitCount(n, 16, width);
    var k := |h|;
    assert PaddedHex(n, width)[2..] == Repeat('0', width - k) + h;
    assert PaddedHex(n, width + extra)[2..] == Repeat('0', width + extra - k) + h;
    assert Repeat('0', extra) + Repeat('0', width - k) == Repeat('0', width + extra - k);
  }

  // ---------------------------------------------------------------------
  // Decoding the answer

  /** `hexDataSlice(data, start, end)`: the bytes from `start` to `end`,
      cut off at the end of the data. */
  function Slice(data: seq<Byte>, start: nat, end: nat): (r: seq<Byte>)
    requires start <= end
    ensures end <= |data| ==> r == data[start..end]
    ensures start <= |data| < end ==> r == data[start..]
    ensures |data| < start ==> r == []
    ensures |r| <= end - start
  {
    var a := if start <= |data| then start else |data|;
    var b := if end <= |data| then end else |data|;
    data[a..b]
  }

  /** The big-endian value of some bytes. */
  function Value(bs: seq<Byte>): nat
    decreases |bs|
  {
    if bs == [] then 0 else Value(bs[..|bs| - 1]) * 256 + bs[|bs| - 1]
  }

  /** `BigNumber.from(hex).toNumber()`: "0x" (no bytes) is not a number,
      and a value above 2^53 - 1 does not fit a JavaScript number. */
  function ToNumber(bs: seq<Byte>): (r: Option<nat>)
    ensures r.Some? <==> bs != [] && Value(bs) <= MaxSafeInteger
    ensures r.Some? ==> r.value == Value(bs)
  {
    if bs == [] || Value(bs) > MaxSafeInteger then None else Some(Value(bs))
  }

  /** The decoding in `lookupAddress`: word 0 is the offset of the string,
      the word there its length, and the bytes after it the text. Every
      error, and an empty name, gives null (None). */
  function DecodeName(res: seq<Byte>, utf8: seq<Byte> -> Option<string>): (r: Option<string>)
    ensures r.Some? ==> r.value != ""
    ensures r.Some? ==> ToNumber(Slice(res, 0, 32)).Some?
  {
    match ToNumber(Slice(res, 0, 32))
    case None => None
    case Some(offset) =>
      match ToNumber(Slice(res, offset, offset + 32))
      case None => None
      case Some(length) =>
        match utf8(Slice(res, offset + 32, offset + 32 + length))
        case None => None
        case Some(s) => if s == "" then None else Some(s)
  }

  /** `lookupAddress`: the failed call and every decoding error give null. */
  function LookupAddress(call: Option<seq<Byte>>, utf8: seq<Byte> -> Option<string>): (r: Option<string>)
    ensures call.None? ==> r.None?
    ensures r.Some? ==> r.value != ""
  {
    match call
    case None => None
    case Some(res) => DecodeName(res, utf8)
  }

  /** n as k big-endian bytes (the low k bytes when n does not fit). */
  function BigEndian(n: nat, k: nat): (bs: seq<Byte>)
    ensures |bs| == k
  {
    if k == 0 then [] else BigEndian(n / 256, k - 1) + [n % 256]
  }

  lemma {:induction false} BigEndianValue(n: nat, k: nat)
    requires n < Pow(256, k)
    ensures Value(BigEndian(n, k)) == n
  {
    if k > 0 {
      DivBelow(n, 256, Pow(256, k - 1));
      BigEndianValue(n / 256, k - 1);
      var bs := BigEndian(n, k);
      assert bs[..|bs| - 1] == BigEndian(n / 256, k - 1);
    }
  }

  lemma {:induction false} PowGrows(b: nat, j: nat, k: nat)
    requires b >= 1 && j <= k
    ensures Pow(b, j) <= Pow(b, k)
    decreases k
  {
    if j < k {
      PowGrows(b, j, k - 1);
      var p := Pow(b, k - 1);
      assert Pow(b, k) == b * p == p + (b - 1) * p;
    }
  }

  /** A 32-byte ABI word. */
  function Word(n: nat): seq<Byte> {
    BigEndian(n, 32)
  }

  /** The ABI encoding of a function result that is one `string`: the offset
      of the string (32, the size of the head), then its length, then its
      bytes padded with zeros to a whole number of words. */
  function EncodeString(text: seq<Byte>): (enc: seq<Byte>)
    ensures |enc| >= 64 + |text| && enc[..32] == Word(32) && enc[32..64] == Word(|text|)
    ensures enc[64..64 + |text|] == text
  {
    Word(32) + Word(|text|) + text + seq((32 - |text| % 32) % 32, _ => 0)
  }

  /** Decoding an ABI-encoded string gives back its text, as UTF-8 decoding
      reads it, except that an empty name is no name. */
  lemma DecodeEncoded(text: seq<Byte>, utf8: seq<Byte> -> Option<string>)
    requires |text| <= MaxSafeInteger
    ensures DecodeName(EncodeString(text), utf8)
            == match utf8(text) case None => None case Some(s) => if s == "" then None else Some(s)
  {
    var enc := EncodeString(text);
    assert Pow(256, 7) == 0x100_0000_0000_0000;
    PowGrows(256, 7, 32);
    BigEndianValue(32, 32);
    BigEndianValue(|text|, 32);
    assert Slice(enc, 0, 32) == Word(32);
    assert Slice(enc, 32, 64) == Word(|text|);
    assert Slice(enc, 64, 64 + |text|) == text;
  }

  // ---------------------------------------------------------------------
  // The effect and its cache

  /** The hook's state for one component: the cache kept across renders,
      the reducer state, and how many lookups have been made. */
  class NameLookup {
    var cache: map<string, string>
    var state: NsState
    var lookups: nat

    constructor ()
      ensures cache == map[] && state == InitialState && lookups == 0
    {
      cache, state, lookups := map[], InitialState, 0;
    }

    /** A cached name is any non-empty entry. */
    predicate Cached(address: string)
      reads this
    {
      address in cache && cache[address] != ""
    }

    /** One run of the effect for `address`. The lookup is only made when
        the address is not cached; `call` is what the chain would answer.
        `cancelled` says whether the effect was cleaned up while the lookup
        was pending, which only silences the dispatch of a found name. The
        effect's own `catch` is never reached: `lookupAddress` catches every
        error itself. */
    method Refresh(address: string, call: Option<seq<Byte>>, utf8: seq<Byte> -> Option<string>, cancelled: bool)
      modifies this
      ensures old(Cached(address)) ==>
                cache == old(cache) && lookups == old(lookups) && state == NsState(false, old(cache)[address])
      ensures !old(Cached(address)) ==> lookups == old(lookups) + 1
      ensures !old(Cached(address)) && LookupAddress(call, utf8).Some? ==>
                var name := LookupAddress(call, utf8).value;
                cache == old(cache)[address := name]
                && state == if cancelled then NsState(true, "") else NsState(false, name)
      ensures !old(Cached(address)) && LookupAddress(call, utf8).None? ==>
                cache == old(cache)[address := ShortAddress(address)] && state == NsState(false, ShortAddress(address))
      ensures Cached(address)
    {
      state := Reduce(state, Fetching);
      if Cached(address) {
        state := Reduce(state, Fetched(cache[address]));
        return;
      }
      lookups := lookups + 1;
      var name := LookupAddress(call, utf8);
      if name.Some? {
        cache := cache[address := name.value];
        if cancelled {
          return;
        }
        state := Reduce(state, Fetched(name.value));
        return;
      }
      cache := cache[address := ShortAddress(address)];
      state := Reduce(state, Fetched(ShortAddress(address)));
    }
  }
}
