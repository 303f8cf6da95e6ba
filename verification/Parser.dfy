/** The wire formats shared by client and server: delimiter splitting, text packets,
    the eight-byte frame header and the read loop that cuts a stream into packets.
    A `string` stands for a C++ `std::string`, one `char` per byte. */
module Parser {
  import opened Options

  const PACKET_IDENTIFIER: string := "QUESYNC"
  const PACKET_DELIMETER: char := '|'
  const PACKET_TYPE_LEN: nat := 3

  // ---------------------------------------------------------------- splitting

  /** Length of the longest prefix of `s` without `d`. */
  function FirstIndex(s: string, d: char): (k: nat)
    ensures k <= |s|
    ensures d !in s[..k]
    ensures k < |s| ==> s[k] == d
  {
    if s == "" || s[0] == d then 0 else
      var k := 1 + FirstIndex(s[1..], d);
      assert s[..k] == [s[0]] + s[1..][..k - 1];
      k
  }

  /** The tokens `std::getline` yields: a token may be empty, but nothing follows a
      delimiter that ends the string. */
  function Split(s: string, d: char): seq<string> {
    if s == "" then []
    else
      var k := FirstIndex(s, d);
      if k == |s| then [s] else [s[..k]] + Split(s[k + 1..], d)
  }

  /** A token, the delimiter, and whatever follows. */
  function Cons(token: string, d: char, rest: string): string { token + [d] + rest }

  /** Every token followed by the delimiter, as the text packets are written. */
  function Join(tokens: seq<string>, d: char): string {
    if tokens == [] then "" else Cons(tokens[0], d, Join(tokens[1..], d))
  }

  ghost predicate DelimiterFree(tokens: seq<string>, d: char) {
    forall i :: 0 <= i < |tokens| ==> d !in tokens[i]
  }

  lemma FirstIndexUnique(s: string, d: char, k: nat)
    requires k <= |s| && d !in s[..k]
    requires k < |s| ==> s[k] == d
    ensures FirstIndex(s, d) == k
  {
    var j := FirstIndex(s, d);
    assert forall i :: 0 <= i < k ==> s[..k][i] == s[i];
    assert forall i :: 0 <= i < j ==> s[..j][i] == s[i];
  }

  lemma FirstTokenOf(token: string, rest: string, d: char)
    requires d !in token
    ensures Split(Cons(token, d, rest), d) == [token] + Split(rest, d)
  {
    var s := Cons(token, d, rest);
    assert s[..|token|] == token;
    FirstIndexUnique(s, d, |token|);
    assert s[|token| + 1..] == rest;
  }

  lemma SplitUnfolds(s: string, d: char)
    requires |Split(s, d)| >= 2
    ensures FirstIndex(s, d) < |s| && s[FirstIndex(s, d) + 1..] != ""
    ensures Split(s, d) == [s[..FirstIndex(s, d)]] + Split(s[FirstIndex(s, d) + 1..], d)
  {
  }

  /** Conversely, a string with a second token is a delimiter-free first token, the
      delimiter, and a non-empty rest that holds the other tokens. */
  lemma FirstTokenSplits(s: string, d: char) returns (token: string, rest: string)
    requires |Split(s, d)| >= 2
    ensures s == Cons(token, d, rest) && d !in token && rest != ""
    ensures token == Split(s, d)[0] && Split(rest, d) == Split(s, d)[1..]
  {
    SplitUnfolds(s, d);
    var k := FirstIndex(s, d);
    token, rest := s[..k], s[k + 1..];
  }

  lemma ConsAppend(token: string, d: char, a: string, b: string)
    ensures Cons(token, d, a) + b == Cons(token, d, a + b)
  {
  }

  lemma PrependToken(tokens: seq<string>, last: seq<string>)
    requires tokens != []
    ensures [tokens[0]] + (tokens[1..] + last) == tokens + last
  {
  }

  lemma {:induction false} SplitAfterJoin(tokens: seq<string>, rest: string, d: char)
    requires DelimiterFree(tokens, d)
    ensures Split(Join(tokens, d) + rest, d) == tokens + Split(rest, d)
  {
    if tokens == [] {
      assert "" + rest == rest;
    } else {
      var first, others := tokens[0], tokens[1..];
      var joined := Join(others, d);
      SplitAfterJoin(others, rest, d);
      ConsAppend(first, d, joined, rest);
      FirstTokenOf(first, joined + rest, d);
      PrependToken(tokens, Split(rest, d));
    }
  }

  /** A string with more than `k` tokens is its first `k` tokens, each with its delimiter,
      and a non-empty rest. */
  lemma {:induction false} JoinBeforeSplit(s: string, k: nat, d: char) returns (rest: string)
    requires k < |Split(s, d)|
    ensures s == Join(Split(s, d)[..k], d) + rest && rest != ""
    ensures DelimiterFree(Split(s, d)[..k], d)
    decreases k
  {
    if k == 0 {
      rest := s;
    } else {
      var token, tail := FirstTokenSplits(s, d);
      rest := JoinBeforeSplit(tail, k - 1, d);
      var taken := Split(tail, d)[..k - 1];
      var all := Split(s, d)[..k];
      assert all[0] == token && all[1..] == taken;
      ConsAppend(token, d, Join(taken, d), rest);
    }
  }

  /** Splitting inverts "each token followed by the delimiter", empty tokens included. */
  lemma SplitInvertsJoin(tokens: seq<string>, d: char)
    requires DelimiterFree(tokens, d)
    ensures Split(Join(tokens, d), d) == tokens
  {
    SplitAfterJoin(tokens, "", d);
    assert Join(tokens, d) + "" == Join(tokens, d);
  }

  /** The other direction: no token holds the delimiter, and rejoining restores the
      string up to the one delimiter that an unterminated last token lacks. */
  lemma {:induction false} JoinInvertsSplit(s: string, d: char)
    ensures DelimiterFree(Split(s, d), d)
    ensures Join(Split(s, d), d) == if s == "" || s[|s| - 1] == d then s else s + [d]
    decreases |s|
  {
    if 2 <= |Split(s, d)| {
      var token, rest := FirstTokenSplits(s, d);
      JoinInvertsSplit(rest, d);
      assert Split(s, d) == [token] + Split(rest, d);
      ConsAppend(token, d, rest, [d]);
    } else if s != "" {
      JoinOfOneToken(s, d);
    }
  }

  lemma JoinOfOneToken(s: string, d: char)
    requires s != "" && |Split(s, d)| < 2
    ensures DelimiterFree(Split(s, d), d)
    ensures Join(Split(s, d), d) == if s[|s| - 1] == d then s else s + [d]
  {
    var k := FirstIndex(s, d);
    if k == |s| {
      assert s[..k] == s;
      assert s[|s| - 1] in s;
    } else {
      assert Split(s, d) == [s[..k]] + Split(s[k + 1..], d);
      assert s[k + 1..] == "";
      assert s == s[..k] + [d];
    }
    assert Join(Split(s, d), d) == Cons(s[..k], d, Join([], d));
  }

  lemma SplitFrom(s: string, d: char, pos: nat, end: nat)
    requires pos <= end <= |s| && pos < |s|
    requires d !in s[pos..end] && (end < |s| ==> s[end] == d)
    ensures Split(s[pos..], d) == [s[pos..end]] + (if end == |s| then [] else Split(s[end + 1..], d))
  {
    assert s[pos..][..end - pos] == s[pos..end];
    FirstIndexUnique(s[pos..], d, end - pos);
    if end < |s| {
      assert s[pos..][end - pos + 1..] == s[end + 1..];
    } else {
      assert s[pos..] == s[pos..end];
    }
  }

  /** One `getline`: the end of the token that starts at `pos`. */
  method TokenEnd(s: string, d: char, pos: nat) returns (end: nat)
    requires pos < |s|
    ensures pos <= end <= |s| && d !in s[pos..end] && (end < |s| ==> s[end] == d)
  {
    end := pos;
    while end < |s| && s[end] != d
      invariant pos <= end <= |s|
      invariant d !in s[pos..end]
    {
      end := end + 1;
    }
  }

  /** The loop of `parser::split`; `pos` is the read position of the string stream. */
  method SplitTokens(s: string, d: char) returns (tokens: seq<string>)
    ensures tokens == Split(s, d)
  {
    tokens := [];
    var pos := 0;
    while pos < |s|
      invariant pos <= |s|
      invariant tokens + Split(s[pos..], d) == Split(s, d)
    {
      var end := TokenEnd(s, d, pos);
      SplitFrom(s, d, pos, end);
      tokens := tokens + [s[pos..end]];
      pos := if end == |s| then end else end + 1;
    }
  }

  // ------------------------------------------------------------- text packets

  /** `packet_type` values run from 0 to 999. */
  type PacketType = n: nat | n < 1000

  function Digit(n: nat): (c: char)
    requires n < 10
    ensures '0' <= c <= '9' && c as int - '0' as int == n
  {
    ('0' as int + n) as char
  }

  function TypeField(t: PacketType): string {
    [Digit(t / 100), Digit(t / 10 % 10), Digit(t % 10)]
  }

  /** `response_packet::encode`: an empty body is left out, delimiter included. */
  function EncodeResponse(t: PacketType, data: string): string {
    PACKET_IDENTIFIER + [PACKET_DELIMETER] + TypeField(t) + [PACKET_DELIMETER] +
    (if data != "" then data + [PACKET_DELIMETER] else "")
  }

  /** `serialized_packet::encode` around an opaque dump of the JSON body. */
  function EncodeSerialized(t: PacketType, dump: string): string {
    PACKET_IDENTIFIER + [PACKET_DELIMETER] + TypeField(t) + [PACKET_DELIMETER] +
    dump + [PACKET_DELIMETER]
  }

  predicate IsDigit(c: char) { '0' <= c <= '9' }

  predicate IsSpace(c: char) { c == ' ' || '\t' <= c <= '\r' }

  /** Value of the longest run of leading digits. */
  function LeadingNumber(s: string, acc: nat): int {
    if s == "" || !IsDigit(s[0]) then acc
    else LeadingNumber(s[1..], 10 * acc + (s[0] as int - '0' as int))
  }

  /** `std::stoi`; `None` is its `invalid_argument`. Three characters cannot overflow. */
  function StoI(s: string): Option<int> {
    if s == "" then None
    else if IsSpace(s[0]) then StoI(s[1..])
    else
      var signed := s[0] == '-' || s[0] == '+';
      var body := if signed then s[1..] else s;
      if body == "" || !IsDigit(body[0]) then None
      else Some(if s[0] == '-' then -LeadingNumber(body, 0) else LeadingNumber(body, 0))
  }

  /** `NotAPacket` is the null result, `Throws` an escaping `out_of_range` or
      `invalid_argument`, `Unpacked` the type and the text handed to `decode`. */
  datatype Parsed = NotAPacket | Throws | Unpacked(packetType: int, rest: string)

  function Prefix(s: string, n: nat): string { if |s| <= n then s else s[..n] }

  function ParsePacket(packet: string): Parsed {
    if Prefix(packet, |PACKET_IDENTIFIER|) != PACKET_IDENTIFIER then NotAPacket
    else if |packet| < |PACKET_IDENTIFIER| + 1 then Throws
    else
      var text := packet[|PACKET_IDENTIFIER| + 1..];
      match StoI(Prefix(text, PACKET_TYPE_LEN))
      case None => Throws
      case Some(t) => if |text| < 4 then Throws else Unpacked(t, text[4..])
  }

  /** The `_data` that `response_packet::decode` leaves: the first token, if there is one. */
  function DecodeData(rest: string): string {
    var params := Split(rest, PACKET_DELIMETER);
    if params == [] then "" else params[0]
  }

  lemma TypeFieldParses(t: PacketType)
    ensures StoI(TypeField(t)) == Some(t)
  {
    var a, b, c := Digit(t / 100), Digit(t / 10 % 10), Digit(t % 10);
    assert [a, b, c][1..] == [b, c] && [b, c][1..] == [c] && [c][1..] == "";
    assert LeadingNumber([c], t / 10) == LeadingNumber("", t);
    assert LeadingNumber([b, c], t / 100) == LeadingNumber([c], t / 10);
    assert LeadingNumber([a, b, c], 0) == LeadingNumber([b, c], t / 100);
  }

  lemma ParseOfPrefix(t: PacketType, rest: string)
    ensures ParsePacket(PACKET_IDENTIFIER + [PACKET_DELIMETER] + TypeField(t) + [PACKET_DELIMETER] + rest)
            == Unpacked(t, rest)
  {
    var p := PACKET_IDENTIFIER + [PACKET_DELIMETER] + TypeField(t) + [PACKET_DELIMETER] + rest;
    assert p[..7] == PACKET_IDENTIFIER;
    assert p[8..] == TypeField(t) + [PACKET_DELIMETER] + rest;
    assert p[8..][..3] == TypeField(t);
    assert p[8..][4..] == rest;
    TypeFieldParses(t);
  }

  lemma DataOfTerminated(data: string)
    ensures DecodeData(data + [PACKET_DELIMETER]) == data[..FirstIndex(data, PACKET_DELIMETER)]
    ensures DecodeData(data + [PACKET_DELIMETER]) == data <==> PACKET_DELIMETER !in data
  {
    if PACKET_DELIMETER in data {
      DataIsCut(data);
    } else {
      FirstTokenOf(data, "", PACKET_DELIMETER);
      assert Cons(data, PACKET_DELIMETER, "") == data + [PACKET_DELIMETER];
      FirstIndexUnique(data, PACKET_DELIMETER, |data|);
    }
  }

  lemma CutAt(data: string, k: nat, d: char)
    requires k < |data| && data[k] == d
    ensures data == Cons(data[..k], d, data[k + 1..])
  {
  }

  lemma DataIsCut(data: string)
    requires PACKET_DELIMETER in data
    ensures FirstIndex(data, PACKET_DELIMETER) < |data|
    ensures DecodeData(data + [PACKET_DELIMETER]) == data[..FirstIndex(data, PACKET_DELIMETER)]
  {
    var k := FirstIndex(data, PACKET_DELIMETER);
    assert k < |data|;
    var token, after := data[..k], data[k + 1..];
    hide FirstIndex, Split;
    CutAt(data, k, PACKET_DELIMETER);
    ConsAppend(token, PACKET_DELIMETER, after, [PACKET_DELIMETER]);
    FirstTokenOf(token, after + [PACKET_DELIMETER], PACKET_DELIMETER);
  }

  /** Parsing an encoded response gives back its type always, and its body exactly
      when the body holds no delimiter. */
  lemma ResponseRoundTrip(t: PacketType, data: string)
    ensures var p := ParsePacket(EncodeResponse(t, data));
            p.Unpacked? && p.packetType == t &&
            (DecodeData(p.rest) == data <==> PACKET_DELIMETER !in data)
  {
    var rest := if data != "" then data + [PACKET_DELIMETER] else "";
    ParseOfPrefix(t, rest);
    DataOfTerminated(data);
  }

  /** The same law for requests: a JSON dump survives exactly when it is free of the
      delimiter; otherwise the receiver sees it cut at its first delimiter. */
  lemma SerializedRoundTrip(t: PacketType, dump: string)
    ensures var p := ParsePacket(EncodeSerialized(t, dump));
            p.Unpacked? && p.packetType == t &&
            DecodeData(p.rest) == dump[..FirstIndex(dump, PACKET_DELIMETER)] &&
            (DecodeData(p.rest) == dump <==> PACKET_DELIMETER !in dump)
  {
    ParseOfPrefix(t, dump + [PACKET_DELIMETER]);
    assert EncodeSerialized(t, dump) ==
           PACKET_IDENTIFIER + [PACKET_DELIMETER] + TypeField(t) + [PACKET_DELIMETER] + (dump + [PACKET_DELIMETER]);
    DataOfTerminated(dump);
  }

  // ------------------------------------------------------- header and framing

  /** `n` bytes of `x`, least significant first. */
  function LittleEndian(x: nat, n: nat): (s: string)
    ensures |s| == n
  {
    if n == 0 then "" else [(x % 256) as char] + LittleEndian(x / 256, n - 1)
  }

  function FromLittleEndian(s: string): nat {
    if s == "" then 0 else s[0] as int + 256 * FromLittleEndian(s[1..])
  }

  function Power256(n: nat): (p: nat)
    ensures p > 0
  {
    if n == 0 then 1 else 256 * Power256(n - 1)
  }

  /** Equal numbers of equally many bytes are equal bytes. */
  lemma {:induction false} LittleEndianDetermines(a: string, b: string)
    requires |a| == |b| && FromLittleEndian(a) == FromLittleEndian(b)
    requires forall k :: 0 <= k < |a| ==> a[k] as int < 256 && b[k] as int < 256
    ensures a == b
  {
    if a != "" {
      var x, y := FromLittleEndian(a[1..]), FromLittleEndian(b[1..]);
      assert (a[0] as int + 256 * x) % 256 == a[0] as int && (b[0] as int + 256 * y) % 256 == b[0] as int;
      LittleEndianDetermines(a[1..], b[1..]);
      assert a == [a[0]] + a[1..] && b == [b[0]] + b[1..];
    }
  }

  lemma {:induction false} LittleEndianRoundTrip(x: nat, n: nat)
    requires x < Power256(n)
    ensures FromLittleEndian(LittleEndian(x, n)) == x
  {
    if n != 0 {
      LittleEndianRoundTrip(x / 256, n - 1);
    }
  }

  /** Byte `k` is the digit of weight 256^k. */
  lemma {:induction false} LittleEndianAt(x: nat, n: nat, k: nat)
    requires k < n
    ensures LittleEndian(x, n)[k] as int == x / Power256(k) % 256
  {
    if k > 0 {
      LittleEndianAt(x / 256, n - 1, k - 1);
      DivideTwice(x, Power256(k - 1));
    }
  }

  lemma DivideTwice(x: nat, p: nat)
    requires p > 0
    ensures x / 256 / p == x / (256 * p)
  {
    var q, r := x / 256, x % 256;
    var a, b := q / p, q % p;
    assert x == 256 * q + r && q == p * a + b;
    assert x == (256 * p) * a + (256 * b + r) by {
      assert 256 * (p * a) == (256 * p) * a;
    }
    assert 0 <= 256 * b + r < 256 * p;
    Quotient(x, 256 * p, a, 256 * b + r);
  }

  lemma Quotient(x: nat, d: nat, a: nat, r: nat)
    requires 0 <= r < d && x == d * a + r
    ensures x / d == a
  {
    var q, s := x / d, x % d;
    assert d * (q - a) == r - s;
    assert q - a >= 1 ==> d * (q - a) >= d;
    assert a - q >= 1 ==> d * (a - q) >= d;
  }

  type Uint32 = n: nat | n < 0x1_0000_0000

  const HEADER_SIZE: nat := 8

  function EncodeHeader(version: Uint32, size: Uint32): (s: string)
    ensures |s| == HEADER_SIZE
  {
    LittleEndian(version, 4) + LittleEndian(size, 4)
  }

  function DecodeHeader(buf: string): (nat, nat)
    requires |buf| >= HEADER_SIZE
  {
    (FromLittleEndian(buf[..4]), FromLittleEndian(buf[4..8]))
  }

  lemma HeaderRoundTrip(version: Uint32, size: Uint32, rest: string)
    ensures DecodeHeader(EncodeHeader(version, size) + rest) == (version, size)
  {
    var h := EncodeHeader(version, size) + rest;
    assert h[..4] == LittleEndian(version, 4) && h[4..8] == LittleEndian(size, 4);
    assert Power256(4) == 0x1_0000_0000;
    LittleEndianRoundTrip(version, 4);
    LittleEndianRoundTrip(size, 4);
  }

  /** A packet that fits a frame. The version field is whatever the sender left in it. */
  datatype Packet = Packet(version: Uint32, body: string)

  ghost predicate Framable(packets: seq<Packet>) {
    forall i :: 0 <= i < |packets| ==> |packets[i].body| < 0x1_0000_0000
  }

  function Frame(p: Packet): string
    requires |p.body| < 0x1_0000_0000
  {
    EncodeHeader(p.version, |p.body|) + p.body
  }

  function Stream(packets: seq<Packet>): string
    requires Framable(packets)
  {
    if packets == [] then "" else Frame(packets[0]) + Stream(packets[1..])
  }

  function Bodies(packets: seq<Packet>): seq<string> {
    seq(|packets|, i requires 0 <= i < |packets| => packets[i].body)
  }

  datatype ReadResult = NeedMore | Got(body: string, rest: string)

  /** One turn of the read loop: eight header bytes, then as many bytes as it says. */
  function ReadFrame(stream: string): ReadResult {
    if |stream| < HEADER_SIZE then NeedMore
    else
      var size := DecodeHeader(stream).1;
      if |stream| < HEADER_SIZE + size then NeedMore
      else Got(stream[HEADER_SIZE..HEADER_SIZE + size], stream[HEADER_SIZE + size..])
  }

  /** The read loop on all the bytes that have arrived: packets read, bytes left over. */
  function ReadAll(stream: string): (seq<string>, string)
    decreases |stream|
  {
    match ReadFrame(stream)
    case NeedMore => ([], stream)
    case Got(body, rest) => var (bodies, left) := ReadAll(rest); ([body] + bodies, left)
  }

  lemma ReadFrameOfFrame(p: Packet, rest: string)
    requires |p.body| < 0x1_0000_0000
    ensures ReadFrame(Frame(p) + rest) == Got(p.body, rest)
  {
    var s := Frame(p) + rest;
    assert s == EncodeHeader(p.version, |p.body|) + (p.body + rest);
    HeaderRoundTrip(p.version, |p.body|, p.body + rest);
    assert s[8..8 + |p.body|] == p.body && s[8 + |p.body|..] == rest;
  }

  /** A frame that has arrived only in part is not read. */
  lemma PartialFrameWaits(p: Packet, n: nat)
    requires |p.body| < 0x1_0000_0000 && n < |Frame(p)|
    ensures ReadFrame(Frame(p)[..n]) == NeedMore
  {
    if n >= 8 {
      var s := Frame(p)[..n];
      assert s == EncodeHeader(p.version, |p.body|) + p.body[..n - 8];
      HeaderRoundTrip(p.version, |p.body|, p.body[..n - 8]);
    }
  }

  /** However many bytes of the written stream have arrived, the loop has read a prefix of
      the packets sent; once all have, it has read exactly those packets and holds nothing. */
  lemma {:induction false} ReadLoopRecovers(packets: seq<Packet>, n: nat)
    requires Framable(packets) && n <= |Stream(packets)|
    ensures ReadAll(Stream(packets)[..n]).0 <= Bodies(packets)
    ensures n == |Stream(packets)| ==> ReadAll(Stream(packets)[..n]) == (Bodies(packets), "")
  {
    var s := Stream(packets)[..n];
    if packets != [] {
      var first, rest := packets[0], packets[1..];
      var f := Frame(first);
      if n < |f| {
        assert s == f[..n];
        PartialFrameWaits(first, n);
      } else {
        assert s == f + Stream(rest)[..n - |f|];
        ReadFrameOfFrame(first, Stream(rest)[..n - |f|]);
        ReadLoopRecovers(rest, n - |f|);
        assert Bodies(packets) == [first.body] + Bodies(rest);
      }
    }
  }

  /** Framing is uniquely decodable: equal byte streams carry equal packet bodies. */
  lemma StreamsDetermineBodies(ps: seq<Packet>, qs: seq<Packet>)
    requires Framable(ps) && Framable(qs) && Stream(ps) == Stream(qs)
    ensures Bodies(ps) == Bodies(qs)
  {
    assert Stream(ps)[..|Stream(ps)|] == Stream(ps);
    ReadLoopRecovers(ps, |Stream(ps)|);
    ReadLoopRecovers(qs, |Stream(qs)|);
  }
}
