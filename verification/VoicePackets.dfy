/** The two voice datagrams: delimiter-separated ids in front of a binary payload that may
    itself be full of delimiters. */
module VoicePackets {
  import opened Options
  import opened Parser

  const D: char := PACKET_DELIMETER

  datatype VoicePacket = VoicePacket(userId: string, sessionId: string, channelId: string, voiceData: string)
  datatype ParticipantPacket = ParticipantPacket(userId: string, voiceData: string)

  function EncodeVoice(p: VoicePacket): string {
    Join([p.userId, p.sessionId, p.channelId], D) + (p.voiceData + [D])
  }

  function EncodeParticipant(p: ParticipantPacket): string {
    Join([p.userId], D) + (p.voiceData + [D])
  }

  /** `(unsigned int)(a - b)` on 64-bit `size_t` operands. */
  function UnsignedDifference(a: nat, b: nat): nat {
    (a - b) % 0x1_0000_0000_0000_0000 % 0x1_0000_0000
  }

  lemma {:induction false} JoinLength(ids: seq<string>)
    ensures |Join(ids, D)| == if ids == [] then 0 else |ids[0]| + 1 + |Join(ids[1..], D)|
  {
  }

  lemma JoinLengths(a: string, b: string, c: string)
    ensures |Join([a, b, c], D)| == |a| + |b| + |c| + 3
  {
    assert [a, b, c][1..] == [b, c] && [b, c][1..] == [c] && [c][1..] == [];
    JoinLength([a, b, c]);
    JoinLength([b, c]);
    JoinLength([c]);
  }

  lemma JoinOne(a: string)
    ensures Join([a], D) == a + [D]
  {
    assert [a][1..] == [] && Join([], D) == "";
    assert a + [D] + "" == a + [D];
  }

  /** After the ids that `decode` reads comes a non-empty rest, so the length subtraction,
      one byte shorter than that rest, cannot wrap. */
  lemma VoiceLayout(buf: string) returns (rest: string)
    requires |Split(buf, D)| >= 4
    ensures var t := Split(buf, D); var off := |t[0]| + |t[1]| + |t[2]| + 3;
            off < |buf| && UnsignedDifference(|buf|, off + 1) <= |buf| - (off + 1) &&
            DelimiterFree([t[0], t[1], t[2]], D) &&
            rest == buf[off..] && buf == Join([t[0], t[1], t[2]], D) + rest
  {
    var t := Split(buf, D);
    rest := JoinBeforeSplit(buf, 3, D);
    assert t[..3] == [t[0], t[1], t[2]];
    JoinLengths(t[0], t[1], t[2]);
  }

  lemma ParticipantLayout(buf: string) returns (rest: string)
    requires |Split(buf, D)| >= 2
    ensures var t := Split(buf, D); var off := |t[0]| + 1;
            off < |buf| && UnsignedDifference(|buf|, off + 1) <= |buf| - (off + 1) &&
            DelimiterFree([t[0]], D) && rest == buf[off..] && buf == Join([t[0]], D) + rest
  {
    var t := Split(buf, D);
    rest := JoinBeforeSplit(buf, 1, D);
    assert t[..1] == [t[0]];
    JoinOne(t[0]);
  }

  lemma VoiceBounds(buf: string)
    requires |Split(buf, D)| >= 4
    ensures var t := Split(buf, D); var off := |t[0]| + |t[1]| + |t[2]| + 3;
            off < |buf| && UnsignedDifference(|buf|, off + 1) <= |buf| - (off + 1)
  {
    var _ := VoiceLayout(buf);
  }

  lemma ParticipantBounds(buf: string)
    requires |Split(buf, D)| >= 2
    ensures var off := |Split(buf, D)[0]| + 1;
            off < |buf| && UnsignedDifference(|buf|, off + 1) <= |buf| - (off + 1)
  {
    var _ := ParticipantLayout(buf);
  }

  /** `voice_packet::decode`; `None` is its `false`. */
  function DecodeVoice(buf: string): Option<VoicePacket> {
    var params := Split(buf, D);
    if |params| >= 4 then
      VoiceBounds(buf);
      var off := |params[0]| + |params[1]| + |params[2]| + 3;
      var len := UnsignedDifference(|buf|, |params[0]| + |params[1]| + |params[2]| + 4);
      Some(VoicePacket(params[0], params[1], params[2], buf[off..off + len]))
    else None
  }

  /** `voice_participant_packet::decode`. */
  function DecodeParticipant(buf: string): Option<ParticipantPacket> {
    var params := Split(buf, D);
    if |params| >= 2 then
      ParticipantBounds(buf);
      var off := |params[0]| + 1;
      var len := UnsignedDifference(|buf|, |params[0]| + 2);
      Some(ParticipantPacket(params[0], buf[off..off + len]))
    else None
  }

  lemma DropAppend(a: string, b: string)
    ensures (a + b)[|a|..] == b
  {
  }

  lemma ReplaceLast(a: string, b: string)
    requires b != ""
    ensures (a + b)[..|a + b| - 1] + [D] == a + (b[..|b| - 1] + [D])
  {
  }

  /** The tokens of an encoded datagram whose ids are delimiter-free. */
  lemma TokensOf(ids: seq<string>, payload: string)
    requires DelimiterFree(ids, D)
    ensures |Split(Join(ids, D) + (payload + [D]), D)| > |ids|
    ensures Split(Join(ids, D) + (payload + [D]), D)[..|ids|] == ids
  {
    var tail := payload + [D];
    SplitAfterJoin(ids, tail, D);
    assert |Split(tail, D)| >= 1;
  }

  /** Every payload survives, delimiters and all, exactly when the three ids hold none. */
  lemma VoiceRoundTrip(p: VoicePacket)
    requires |p.voiceData| < 0x1_0000_0000
    ensures DecodeVoice(EncodeVoice(p)) == Some(p)
            <==> D !in p.userId && D !in p.sessionId && D !in p.channelId
  {
    var buf := EncodeVoice(p);
    if D !in p.userId && D !in p.sessionId && D !in p.channelId {
      VoiceSurvives(p, buf);
    } else if DecodeVoice(buf) == Some(p) {
      IdsAreFree(p, buf);
    }
  }

  lemma IdsAreFree(p: VoicePacket, buf: string)
    requires DecodeVoice(buf) == Some(p)
    ensures D !in p.userId && D !in p.sessionId && D !in p.channelId
  {
    var _ := VoiceLayout(buf);
    var ids := [p.userId, p.sessionId, p.channelId];
    assert D !in ids[0] && D !in ids[1] && D !in ids[2];
  }

  lemma VoiceSurvives(p: VoicePacket, buf: string)
    requires |p.voiceData| < 0x1_0000_0000 && buf == EncodeVoice(p)
    requires D !in p.userId && D !in p.sessionId && D !in p.channelId
    ensures DecodeVoice(buf) == Some(p)
  {
    var ids, tail := [p.userId, p.sessionId, p.channelId], p.voiceData + [D];
    TokensOf(ids, p.voiceData);
    var t := Split(buf, D);
    assert t[0] == t[..3][0] && t[1] == t[..3][1] && t[2] == t[..3][2];
    JoinLengths(p.userId, p.sessionId, p.channelId);
    DropAppend(Join(ids, D), tail);
    VoiceDataIs(buf, tail);
    assert tail[..|p.voiceData|] == p.voiceData;
  }

  lemma ParticipantRoundTrip(p: ParticipantPacket)
    requires |p.voiceData| < 0x1_0000_0000
    ensures DecodeParticipant(EncodeParticipant(p)) == Some(p) <==> D !in p.userId
  {
    var buf := EncodeParticipant(p);
    if D !in p.userId {
      ParticipantSurvives(p, buf);
    } else if DecodeParticipant(buf) == Some(p) {
      var _ := ParticipantLayout(buf);
    }
  }

  lemma ParticipantSurvives(p: ParticipantPacket, buf: string)
    requires |p.voiceData| < 0x1_0000_0000 && buf == EncodeParticipant(p) && D !in p.userId
    ensures DecodeParticipant(buf) == Some(p)
  {
    var tail := p.voiceData + [D];
    TokensOf([p.userId], p.voiceData);
    assert Split(buf, D)[..1][0] == p.userId;
    JoinOne(p.userId);
    DropAppend(p.userId + [D], tail);
    ParticipantDataIs(buf, tail);
    assert tail[..|p.voiceData|] == p.voiceData;
  }

  /** The payload is what lies between the ids' last delimiter and the last byte. */
  lemma VoiceDataIs(buf: string, rest: string)
    requires |Split(buf, D)| >= 4 && 0 < |rest| <= 0x1_0000_0000
    requires var off := |Split(buf, D)[0]| + |Split(buf, D)[1]| + |Split(buf, D)[2]| + 3;
             off < |buf| && rest == buf[off..]
    ensures var t := Split(buf, D);
            DecodeVoice(buf) == Some(VoicePacket(t[0], t[1], t[2], rest[..|rest| - 1]))
  {
    var off := |Split(buf, D)[0]| + |Split(buf, D)[1]| + |Split(buf, D)[2]| + 3;
    assert buf[off..off + (|rest| - 1)] == rest[..|rest| - 1];
  }

  lemma ParticipantDataIs(buf: string, rest: string)
    requires |Split(buf, D)| >= 2 && 0 < |rest| <= 0x1_0000_0000
    requires |Split(buf, D)[0]| + 1 < |buf| && rest == buf[|Split(buf, D)[0]| + 1..]
    ensures DecodeParticipant(buf) == Some(ParticipantPacket(Split(buf, D)[0], rest[..|rest| - 1]))
  {
    var off := |Split(buf, D)[0]| + 1;
    assert buf[off..off + (|rest| - 1)] == rest[..|rest| - 1];
  }

  /** What any accepted datagram decodes to: its ids are delimiter-free, and re-encoding
      differs from the input in the last byte only, which `decode` takes for a delimiter. */
  lemma VoiceDecodeInverts(buf: string)
    requires |buf| < 0x1_0000_0000 && DecodeVoice(buf).Some?
    ensures EncodeVoice(DecodeVoice(buf).value) == buf[..|buf| - 1] + [D]
  {
    var rest := VoiceLayout(buf);
    VoiceDataIs(buf, rest);
    var p := DecodeVoice(buf).value;
    var ids := Join([p.userId, p.sessionId, p.channelId], D);
    ReplaceLast(ids, rest);
  }

  lemma ParticipantDecodeInverts(buf: string)
    requires |buf| < 0x1_0000_0000 && DecodeParticipant(buf).Some?
    ensures EncodeParticipant(DecodeParticipant(buf).value) == buf[..|buf| - 1] + [D]
  {
    var rest := ParticipantLayout(buf);
    ParticipantDataIs(buf, rest);
    var p := DecodeParticipant(buf).value;
    ReplaceLast(Join([p.userId], D), rest);
  }
}
