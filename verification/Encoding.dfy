// The text encodings the repository keys its maps by and hashes: decimal numbers,
// "block_%d" keys, 0x-prefixed hexadecimal, and the two encodings of a transaction.

module Encoding {
  import opened Options
  import opened Words

  predicate IsDigit(c: char) {
    '0' <= c <= '9'
  }

  /** Go's %d (and strconv.FormatUint in base 10) on a value that is not negative. */
  function Decimal(n: nat): (s: string)
    ensures s != "" && forall i :: 0 <= i < |s| ==> IsDigit(s[i])
    ensures DecimalValue(s) == n
  {
    if n < 10 then [DigitOf(n)] else Decimal(n / 10) + [DigitOf(n % 10)]
  }

  function DigitOf(d: nat): char
    requires d < 10
  {
    ('0' as int + d) as char
  }

  function DecimalValue(s: string): int {
    if s == "" then 0
    else 10 * DecimalValue(s[..|s| - 1]) + (s[|s| - 1] as int - '0' as int)
  }

  lemma DecimalInjective(m: nat, n: nat)
    ensures Decimal(m) == Decimal(n) <==> m == n
  {
    assert DecimalValue(Decimal(m)) == m && DecimalValue(Decimal(n)) == n;
  }

  /** The trie key, and the Merkle root text, of the block at a height. */
  function BlockKey(height: nat): (key: string)
    ensures KeyHeight(key) == height
  {
    var key := "block_" + Decimal(height);
    assert key[6..] == Decimal(height);
    key
  }

  /** Reads the height back from a key. */
  function KeyHeight(key: string): int {
    if |key| < 6 then 0 else DecimalValue(key[6..])
  }

  lemma BlockKeysNeverCollide(h: nat, k: nat)
    ensures BlockKey(h) == BlockKey(k) <==> h == k
  {
    assert KeyHeight(BlockKey(h)) == h && KeyHeight(BlockKey(k)) == k;
  }

  // ---------- hexutil ----------

  function HexChar(d: nat): (c: char)
    requires d < 16
    ensures HexDigit(c) == Some(d)
  {
    if d < 10 then ('0' as int + d) as char else ('a' as int + d - 10) as char
  }

  /** Both cases are read, only lower case is written. */
  function HexDigit(c: char): (d: Option<nat>)
    ensures d.Some? ==> d.value < 16
  {
    if '0' <= c <= '9' then Some(c as int - '0' as int)
    else if 'a' <= c <= 'f' then Some(c as int - 'a' as int + 10)
    else if 'A' <= c <= 'F' then Some(c as int - 'A' as int + 10)
    else None
  }

  function HexBody(bytes: seq<Byte>): (s: string)
    ensures HexBodyDecode(s) == Some(bytes)
  {
    if bytes == [] then ""
    else
      var rest := HexBody(bytes[1..]);
      var s := [HexChar(bytes[0] / 16), HexChar(bytes[0] % 16)] + rest;
      assert s[2..] == rest && [bytes[0]] + bytes[1..] == bytes;
      s
  }

  function HexBodyDecode(s: string): Option<seq<Byte>> {
    if s == "" then Some([])
    else if |s| == 1 then None
    else
      var high, low, rest := HexDigit(s[0]), HexDigit(s[1]), HexBodyDecode(s[2..]);
      if high == None || low == None || rest == None then None
      else Some([16 * high.value + low.value] + rest.value)
  }

  /** hexutil.Encode, with the round trip its callers rely on. */
  function HexEncode(bytes: seq<Byte>): (s: string)
    ensures HexDecode(s) == Some(bytes)
  {
    var body := HexBody(bytes);
    assert ("0x" + body)[2..] == body;
    "0x" + body
  }

  /** hexutil.Decode: the empty string and a missing prefix are errors. */
  function HexDecode(s: string): Option<seq<Byte>> {
    if |s| < 2 || s[0] != '0' || (s[1] != 'x' && s[1] != 'X') then None
    else HexBodyDecode(s[2..])
  }

  lemma HexEncodeInjective(a: seq<Byte>, b: seq<Byte>)
    ensures HexEncode(a) == HexEncode(b) <==> a == b
  {
    assert HexDecode(HexEncode(a)) == Some(a) && HexDecode(HexEncode(b)) == Some(b);
  }

  lemma HexCharText(d: nat)
    requires d < 16
    ensures HexChar(d) == "0123456789abcdef"[d]
  {
  }

  lemma {:induction false} HexBodyText(bytes: seq<Byte>)
    ensures |HexBody(bytes)| == 2 * |bytes|
    ensures forall i :: 0 <= i < |bytes| ==>
              HexBody(bytes)[2 * i] == HexChar(bytes[i] / 16) && HexBody(bytes)[2 * i + 1] == HexChar(bytes[i] % 16)
  {
    hide HexChar, HexBodyDecode;
    if bytes != [] {
      HexBodyText(bytes[1..]);
      var s, rest := HexBody(bytes), HexBody(bytes[1..]);
      assert s == [HexChar(bytes[0] / 16), HexChar(bytes[0] % 16)] + rest;
      forall i | 0 <= i < |bytes|
        ensures s[2 * i] == HexChar(bytes[i] / 16) && s[2 * i + 1] == HexChar(bytes[i] % 16)
      {
        if i > 0 {
          assert bytes[1..][i - 1] == bytes[i];
          assert s[2 * i] == rest[2 * (i - 1)] && s[2 * i + 1] == rest[2 * (i - 1) + 1];
        }
      }
    }
  }

  /** Two lower-case digits to a byte, after the prefix. */
  lemma HexEncodeText(bytes: seq<Byte>)
    ensures var s := HexEncode(bytes);
            && |s| == 2 * |bytes| + 2 && s[..2] == "0x"
            && forall i :: 0 <= i < |bytes| ==>
                 s[2 * i + 2] == HexChar(bytes[i] / 16) && s[2 * i + 3] == HexChar(bytes[i] % 16)
  {
    hide HexChar, HexBody, HexDecode;
    HexBodyText(bytes);
  }

  predicate IsHexDigit(c: char) {
    '0' <= c <= '9' || 'a' <= c <= 'f' || 'A' <= c <= 'F'
  }

  lemma {:induction false} HexBodyDecodeIff(s: string)
    ensures HexBodyDecode(s).Some? <==> |s| % 2 == 0 && forall i :: 0 <= i < |s| ==> IsHexDigit(s[i])
    decreases |s|
  {
    if |s| >= 2 {
      var rest := s[2..];
      HexBodyDecodeIff(rest);
      assert forall i :: 0 <= i < |rest| ==> rest[i] == s[i + 2];
      assert forall i :: 2 <= i < |s| ==> s[i] == rest[i - 2];
    }
  }

  /** What is read: a prefix in either case, then an even number of digits in either case, possibly none. */
  lemma HexDecodeIff(s: string)
    ensures HexDecode(s).Some? <==>
            && |s| >= 2 && |s| % 2 == 0 && s[0] == '0' && (s[1] == 'x' || s[1] == 'X')
            && forall i :: 2 <= i < |s| ==> IsHexDigit(s[i])
  {
    hide HexBodyDecode, IsHexDigit;
    if |s| >= 2 {
      var rest := s[2..];
      HexBodyDecodeIff(rest);
      assert forall i :: 0 <= i < |rest| ==> rest[i] == s[i + 2];
      assert forall i :: 2 <= i < |s| ==> s[i] == rest[i - 2];
    }
  }
}

module Transactions {
  import opened Options
  import opened Words
  import opened Encoding

  type TxId = seq<Byte>

  datatype Transaction = Transaction(id: TxId, from: string, to: string, amount: Word, timestamp: Word,
                                     signature: string)

  /** The four fields that a transaction's ID and its signature are computed from. */
  predicate SameTransfer(t: Transaction, u: Transaction) {
    t.from == u.from && t.to == u.to && t.amount == u.amount && t.timestamp == u.timestamp
  }

  /** What Hash feeds to SHA-256: the fields with nothing between them. */
  function HashPreimage(t: Transaction): string {
    t.from + t.to + Decimal(t.amount) + Decimal(t.timestamp)
  }

  /** What is signed and verified: the fields joined by underscores. */
  function SigningMessage(t: Transaction): string {
    t.from + "_" + t.to + "_" + Decimal(t.amount) + "_" + Decimal(t.timestamp)
  }

  /** Two transactions with one preimage are the same transfer exactly when the field widths agree. */
  lemma PreimageDeterminesTransferIff(t: Transaction, u: Transaction)
    requires HashPreimage(t) == HashPreimage(u)
    ensures SameTransfer(t, u) <==>
            |t.from| == |u.from| && |t.to| == |u.to| && |Decimal(t.timestamp)| == |Decimal(u.timestamp)|
  {
    if |t.from| == |u.from| && |t.to| == |u.to| && |Decimal(t.timestamp)| == |Decimal(u.timestamp)| {
      var p := HashPreimage(t);
      var i, j, k := |t.from|, |t.from| + |t.to|, |p| - |Decimal(t.timestamp)|;
      assert t.from == p[..i] == u.from;
      assert t.to == p[i..j] == u.to;
      assert Decimal(t.amount) == p[j..k] == Decimal(u.amount);
      assert Decimal(t.timestamp) == p[k..] == Decimal(u.timestamp);
      DecimalInjective(t.amount, u.amount);
      DecimalInjective(t.timestamp, u.timestamp);
    }
  }

  /** For every sender, recipient and time: one coin to a recipient whose name ends in a further digit 1, and
      eleven coins to the recipient without it, have one preimage, hence one ID. */
  lemma PreimageIsAmbiguous(from: string, to: string, time: Word)
    ensures forall id, id', s, s' ::
              var t, u := Transaction(id, from, to + "1", 1, time, s), Transaction(id', from, to, 11, time, s');
              HashPreimage(t) == HashPreimage(u) && !SameTransfer(t, u)
  {
    assert Decimal(1) == "1" && Decimal(11) == Decimal(1) + "1" == "11";
    assert from + (to + "1") + "1" == from + to + "11";
    assert |to + "1"| != |to|;
  }

  /** A collision-free hash makes the ID decide the transfer for addresses and timestamps of one width. */
  lemma IdDeterminesTransfer(sha256: string -> TxId, t: Transaction, u: Transaction)
    requires t.id == sha256(HashPreimage(t)) && u.id == sha256(HashPreimage(u))
    requires sha256(HashPreimage(t)) == sha256(HashPreimage(u)) ==> HashPreimage(t) == HashPreimage(u)
    requires |t.from| == |u.from| && |t.to| == |u.to| && |Decimal(t.timestamp)| == |Decimal(u.timestamp)|
    ensures t.id == u.id <==> SameTransfer(t, u)
  {
    if t.id == u.id {
      PreimageDeterminesTransferIff(t, u);
    }
  }

  /** The part of a text after its last underscore is determined by the text. */
  lemma SplitAtLastUnderscore(a: string, d: string, a': string, d': string)
    requires a + "_" + d == a' + "_" + d'
    requires '_' !in d && '_' !in d'
    ensures a == a' && d == d'
  {
    var s := a + "_" + d;
    assert s[|a|] == '_' && s[|a'|] == '_';
    assert forall i :: 0 <= i < |d| ==> s[|a| + 1 + i] == d[i];
    assert forall i :: |a| < i < |s| ==> s[i] != '_' by {
      assert forall i :: |a| < i < |s| ==> s[i] == d[i - |a| - 1];
    }
    assert forall i :: |a'| < i < |s| ==> s[i] != '_' by {
      assert forall i :: |a'| < i < |s| ==> s[i] == d'[i - |a'| - 1];
    }
    assert a == s[..|a|] == a' && d == s[|a| + 1..] == d';
  }

  /** Two transactions with one signing message are the same transfer exactly when the sender widths agree. */
  lemma MessageDeterminesTransferIff(t: Transaction, u: Transaction)
    requires t.from + "_" + t.to + "_" + Decimal(t.amount) + "_" + Decimal(t.timestamp)
             == u.from + "_" + u.to + "_" + Decimal(u.amount) + "_" + Decimal(u.timestamp)
    ensures SameTransfer(t, u) <==> |t.from| == |u.from|
  {
    var at, au := t.from + "_" + t.to + "_" + Decimal(t.amount), u.from + "_" + u.to + "_" + Decimal(u.amount);
    SplitAtLastUnderscore(at, Decimal(t.timestamp), au, Decimal(u.timestamp));
    SplitAtLastUnderscore(t.from + "_" + t.to, Decimal(t.amount), u.from + "_" + u.to, Decimal(u.amount));
    DecimalInjective(t.amount, u.amount);
    DecimalInjective(t.timestamp, u.timestamp);
    if |t.from| == |u.from| {
      var s := t.from + "_" + t.to;
      assert t.from == s[..|t.from|] == u.from;
      assert t.to == s[|t.from| + 1..] == u.to;
    }
  }

  /** Senders without an underscore (hexadecimal addresses) make the signing message unambiguous. */
  lemma MessageDeterminesTransfer(t: Transaction, u: Transaction)
    requires t.from + "_" + t.to + "_" + Decimal(t.amount) + "_" + Decimal(t.timestamp)
             == u.from + "_" + u.to + "_" + Decimal(u.amount) + "_" + Decimal(u.timestamp)
    requires '_' !in t.from && '_' !in u.from
    ensures SameTransfer(t, u)
  {
    var s := t.from + "_" + t.to + "_" + Decimal(t.amount) + "_" + Decimal(t.timestamp);
    assert s[|t.from|] == '_' && s[|u.from|] == '_';
    assert t.from == s[..|t.from|] && u.from == s[..|u.from|];
    assert forall i :: 0 <= i < |t.from| ==> s[i] == t.from[i] != '_';
    assert forall i :: 0 <= i < |u.from| ==> s[i] == u.from[i] != '_';
    MessageDeterminesTransferIff(t, u);
  }
}
