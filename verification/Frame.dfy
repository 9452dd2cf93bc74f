/** Length-delimited frames, with optional compression inside and one optional
  * CFB8 stream outside. zlib and the block cipher are parameters. */
module Frame {
  import opened Bytes
  import opened Codec
  import opened Cfb8

  const MAX_PACKET_SIZE: nat := 2097151
  const MAX_LEN_BYTES: nat := 3
  const MAX_UNCOMPRESSED: nat := 16777216
  const COMPRESSION_DISABLED: int := -1
  const SECRET_SIZE: nat := 16

  /** The library calls: zlib's two directions and AES keyed by a shared secret.
    * `inflate` gives the bytes produced before the compressed stream ends or fails. */
  datatype Lib = Lib(deflate: seq<u8> -> seq<u8>, inflate: seq<u8> -> seq<u8>, aes: seq<u8> -> BlockCipher)

  /** All that is needed of zlib: inflating undoes deflating, and nothing deflates to no bytes. */
  ghost predicate ZlibLaws(z: Lib) {
    forall b :: z.inflate(z.deflate(b)) == b && z.deflate(b) != []
  }

  // ---- Plain frames ----

  function Inner(z: Lib, threshold: int, body: seq<u8>): seq<u8> {
    if threshold < 0 then body
    else if |body| < threshold then VarIntBytes(0) + body
    else VarIntBytes(AsI32(|body|)) + z.deflate(body)
  }

  function FrameBytes(z: Lib, threshold: int, body: seq<u8>): seq<u8> {
    VarIntBytes(AsI32(|Inner(z, threshold, body)|)) + Inner(z, threshold, body)
  }

  function Unwrap(z: Lib, threshold: int, raw: seq<u8>): Parsed<seq<u8>> {
    if threshold < 0 then Ok(raw, [])
    else
      var (dataLen, payload) :- ParseVarInt(raw);
      if dataLen == 0 then Ok(payload, [])
      else if dataLen < 0 || dataLen > MAX_UNCOMPRESSED then Err(PacketTooLarge)
      else
        var out := z.inflate(payload);
        if |out| < dataLen then Err(BadZlib)
        else if |out| > dataLen then Err(SizeMismatch)
        else Ok(out, [])
  }

  function ParseLength(s: seq<u8>): Parsed<nat> {
    var (n, r) :- ParseLeb(s, MAX_LEN_BYTES, PacketTooLarge);
    if n < 1 || n > MAX_PACKET_SIZE then Err(BadLength) else Ok(n, r)
  }

  function ParseFrame(z: Lib, threshold: int, s: seq<u8>): Parsed<seq<u8>> {
    var (n, r) :- ParseLength(s);
    var (raw, r2) :- ParseRaw(r, n);
    var (body, _) :- Unwrap(z, threshold, raw);
    Ok(body, r2)
  }

  /** The bodies a frame can carry under a sender's threshold. */
  predicate FrameFits(z: Lib, threshold: int, body: seq<u8>) {
    if threshold < 0 then 1 <= |body| <= MAX_PACKET_SIZE
    else if |body| < threshold then |body| + 1 <= MAX_PACKET_SIZE
    else 1 <= |body| <= MAX_UNCOMPRESSED && |VarIntBytes(AsI32(|body|))| + |z.deflate(body)| <= MAX_PACKET_SIZE
  }

  lemma Pow21()
    ensures Pow2(7 * MAX_LEN_BYTES) == MAX_PACKET_SIZE + 1
  {
    assert Pow2(7) == 128;
    Pow2Add(7, 7);
    Pow2Add(7, 14);
  }

  /** A length prefix reads back exactly when it is between 1 and the packet cap. */
  lemma LengthRead(c: seq<u8>, rest: seq<u8>)
    ensures 1 <= |c| <= MAX_PACKET_SIZE ==>
              ParseLength(VarIntBytes(AsI32(|c|)) + (c + rest)) == Ok(|c|, c + rest)
    ensures !(1 <= |c| <= MAX_PACKET_SIZE) ==>
              var p := ParseLength(VarIntBytes(AsI32(|c|)) + (c + rest));
              p.Err? || (p.value < |c| && p.rest == c + rest)
  {
    var u: nat := AsU32(AsI32(|c|));
    Pow21();
    hide Leb, ParseLeb, Pow2;
    if u <= MAX_PACKET_SIZE {
      LebRoundTrip(u, MAX_LEN_BYTES, c + rest, PacketTooLarge);
    } else {
      LebTooLong(u, MAX_LEN_BYTES, c + rest, PacketTooLarge);
    }
  }

  lemma UnwrapInnerIff(z: Lib, ts: int, tr: int, body: seq<u8>)
    requires ZlibLaws(z) && (ts < 0 <==> tr < 0) && |Inner(z, ts, body)| <= MAX_PACKET_SIZE
    ensures ts < 0 || |body| < ts ==> Unwrap(z, tr, Inner(z, ts, body)) == Ok(body, [])
    ensures 0 <= ts <= |body| ==>
              (Unwrap(z, tr, Inner(z, ts, body)) == Ok(body, []) <==> 1 <= |body| <= MAX_UNCOMPRESSED)
  {
    hide VarIntBytes, ParseVarInt;
    if ts >= 0 {
      if |body| < ts {
        VarIntRoundTrip(0, body);
      } else {
        var d := z.deflate(body);
        VarIntRoundTrip(AsI32(|body|), d);
        assert z.inflate(d) == body && d != [];
      }
    }
  }

  /** Whatever follows on the stream, a frame reads back to its body with exactly
    * its own bytes consumed if and only if the body fits. */
  lemma FrameRoundTripIff(z: Lib, ts: int, tr: int, body: seq<u8>, rest: seq<u8>)
    requires ZlibLaws(z) && (ts < 0 <==> tr < 0)
    ensures ParseFrame(z, tr, FrameBytes(z, ts, body) + rest) == Ok(body, rest) <==> FrameFits(z, ts, body)
  {
    hide VarIntBytes, ParseLength, Unwrap;
    var c := Inner(z, ts, body);
    assert FrameBytes(z, ts, body) + rest == VarIntBytes(AsI32(|c|)) + (c + rest);
    LengthRead(c, rest);
    InnerSize(z, ts, body);
    if 1 <= |c| <= MAX_PACKET_SIZE {
      assert (c + rest)[..|c|] == c && (c + rest)[|c|..] == rest;
      UnwrapInnerIff(z, ts, tr, body);
      UnwrapUsesAll(z, tr, c);
    }
  }

  /** A bound on what zlib adds: what a frame can hold deflates to less than 4 GiB. */
  ghost predicate DeflateBounded(z: Lib) {
    forall b :: |b| <= MAX_UNCOMPRESSED ==> |VarIntBytes(AsI32(|b|))| + |z.deflate(b)| < TWO32
  }

  /** A body that does not fit never reads back to itself, whatever is left over. */
  lemma UnfitNeverItself(z: Lib, ts: int, tr: int, body: seq<u8>, rest: seq<u8>)
    requires ZlibLaws(z) && DeflateBounded(z) && (ts < 0 <==> tr < 0) && !FrameFits(z, ts, body)
    ensures var p := ParseFrame(z, tr, FrameBytes(z, ts, body) + rest); p.Ok? ==> p.value != body
  {
    hide VarIntBytes, ParseLength, Unwrap;
    var c := Inner(z, ts, body);
    assert FrameBytes(z, ts, body) + rest == VarIntBytes(AsI32(|c|)) + (c + rest);
    LengthRead(c, rest);
    InnerSize(z, ts, body);
    if 1 <= |c| <= MAX_PACKET_SIZE {
      assert (c + rest)[..|c|] == c && (c + rest)[|c|..] == rest;
      UnwrapInnerIff(z, ts, tr, body);
      UnwrapUsesAll(z, tr, c);
    } else {
      var l := ParseLength(VarIntBytes(AsI32(|c|)) + (c + rest));
      if l.Ok? {
        assert (c + rest)[..l.value] == c[..l.value];
        LengthCapped(VarIntBytes(AsI32(|c|)) + (c + rest));
        if 0 <= ts <= |body| <= MAX_UNCOMPRESSED {
          VarIntRoundTrip(AsI32(|body|), []);
          LongLength(c, rest);
        }
        CutNeverItself(z, ts, tr, body, l.value);
      }
    }
  }

  lemma LengthCapped(s: seq<u8>)
    ensures var l := ParseLength(s); l.Ok? ==> 1 <= l.value <= MAX_PACKET_SIZE
  {
    hide ParseLeb;
  }

  /** A length over the cap that fits 32 bits is refused. */
  lemma LongLength(c: seq<u8>, rest: seq<u8>)
    requires MAX_PACKET_SIZE < |c| < TWO32
    ensures ParseLength(VarIntBytes(AsI32(|c|)) + (c + rest)).Err?
  {
    Pow21();
    hide Leb, ParseLeb, Pow2;
    LebTooLong(AsU32(AsI32(|c|)), MAX_LEN_BYTES, c + rest, PacketTooLarge);
  }

  /** Nor does one whose length prefix says less than there is. */
  lemma CutNeverItself(z: Lib, ts: int, tr: int, body: seq<u8>, n: nat)
    requires (ts < 0 <==> tr < 0) && 1 <= n < |Inner(z, ts, body)| && n <= MAX_PACKET_SIZE
    requires 0 <= ts <= |body| ==> |body| > MAX_UNCOMPRESSED
    ensures var u := Unwrap(z, tr, Inner(z, ts, body)[..n]); u.Ok? ==> u.value != body
  {
    hide VarIntBytes, ParseVarInt;
    var c := Inner(z, ts, body);
    if ts >= 0 {
      if |body| < ts {
        StoredHead(body, n);
        VarIntRoundTrip(0, body[..n - 1]);
      } else {
        SmallerRest(c[..n]);
      }
    }
  }

  lemma StoredHead(body: seq<u8>, n: nat)
    requires 1 <= n < |VarIntBytes(0) + body|
    ensures n <= |body| && (VarIntBytes(0) + body)[..n] == VarIntBytes(0) + body[..n - 1]
  {
    assert |VarIntBytes(0)| == 1;
  }

  lemma SmallerRest(s: seq<u8>)
    ensures ParseVarInt(s).Ok? ==> |ParseVarInt(s).rest| <= |s|
  {
    hide ParseLeb;
    if ParseVarInt(s).Ok? {
      var _ := ParseLebConsumes(s, 5, VarIntTooLong);
    }
  }

  /** What a frame parses to, by the outcome of its length. */
  lemma FrameParse(z: Lib, threshold: int, s: seq<u8>)
    ensures var (f, l) := (ParseFrame(z, threshold, s), ParseLeb(s, MAX_LEN_BYTES, PacketTooLarge));
            if l.Err? then f == Err(l.error)
            else if l.value < 1 || l.value > MAX_PACKET_SIZE then f == Err(BadLength)
            else if l.value > |l.rest| then f == Err(Truncated)
            else var u := Unwrap(z, threshold, l.rest[..l.value]);
                 f == if u.Err? then Err(u.error) else Ok(u.value, l.rest[l.value..])
  {
    hide ParseLeb, Unwrap;
  }

  lemma UnwrapUsesAll(z: Lib, threshold: int, raw: seq<u8>)
    ensures Unwrap(z, threshold, raw).Ok? ==> Unwrap(z, threshold, raw).rest == []
  {
    hide ParseVarInt;
  }

  lemma InnerSize(z: Lib, ts: int, body: seq<u8>)
    requires ZlibLaws(z)
    ensures FrameFits(z, ts, body) ==> 1 <= |Inner(z, ts, body)| <= MAX_PACKET_SIZE
    ensures 1 <= |Inner(z, ts, body)| <= MAX_PACKET_SIZE && !FrameFits(z, ts, body) ==>
              0 <= ts <= |body| && !(1 <= |body| <= MAX_UNCOMPRESSED)
  {
    assert |VarIntBytes(0)| == 1;
    hide VarIntBytes;
    VarIntRoundTrip(AsI32(|body|), []);
  }

  /** An empty body is lost in two ways: the raw length prefix is zero, and with
    * threshold 0 its compressed form is taken for a stored body. */
  lemma EmptyBodies(z: Lib, rest: seq<u8>)
    requires ZlibLaws(z)
    ensures ParseFrame(z, COMPRESSION_DISABLED, FrameBytes(z, COMPRESSION_DISABLED, []) + rest) != Ok([], rest)
    ensures ParseFrame(z, 0, FrameBytes(z, 0, []) + rest) != Ok([], rest)
    ensures ParseFrame(z, 1, FrameBytes(z, 1, []) + rest) == Ok([], rest)
  {
    hide FrameBytes, ParseFrame;
    FrameRoundTripIff(z, COMPRESSION_DISABLED, COMPRESSION_DISABLED, [], rest);
    FrameRoundTripIff(z, 0, 0, [], rest);
    FrameRoundTripIff(z, 1, 1, [], rest);
  }

  /** Without compression the body follows its length; below the threshold it is stored
    * after a zero byte, and from the threshold on deflated after its own length. */
  lemma FrameForms(z: Lib, threshold: int, body: seq<u8>)
    ensures threshold < 0 ==> FrameBytes(z, threshold, body) == VarIntBytes(AsI32(|body|)) + body
    ensures |body| < threshold ==> FrameBytes(z, threshold, body) == VarIntBytes(AsI32(|body| + 1)) + ([0] + body)
    ensures 0 <= threshold <= |body| ==>
              var c := VarIntBytes(AsI32(|body|)) + z.deflate(body);
              FrameBytes(z, threshold, body) == VarIntBytes(AsI32(|c|)) + c
  {
    assert VarIntBytes(0) == [0];
    hide VarIntBytes;
  }

  /** How large a body may be. */
  lemma FrameLimits(z: Lib, threshold: int, body: seq<u8>)
    ensures threshold < 0 ==> (FrameFits(z, threshold, body) <==> 1 <= |body| <= 2097151)
    ensures |body| < threshold ==> (FrameFits(z, threshold, body) <==> |body| <= 2097150)
    ensures 0 <= threshold <= |body| ==>
              (FrameFits(z, threshold, body)
               <==> 1 <= |body| <= 16777216 && |VarIntBytes(AsI32(|body|))| + |z.deflate(body)| <= 2097151)
  {
    hide VarIntBytes;
  }

  /** What makes a frame acceptable: a length of up to three bytes and 2097151 that the
    * stream covers and, with compression, a declared size of 0, or of up to 16777216
    * that is exactly what inflating gives. */
  lemma FrameAcceptedIff(z: Lib, threshold: int, s: seq<u8>)
    ensures var (f, l) := (ParseFrame(z, threshold, s), ParseLeb(s, 3, PacketTooLarge));
            f.Ok? <==>
              && l.Ok? && 1 <= l.value <= 2097151 && l.value <= |l.rest|
              && (threshold >= 0 ==>
                    var d := ParseVarInt(l.rest[..l.value]);
                    d.Ok? && 0 <= d.value <= 16777216 && (d.value > 0 ==> |z.inflate(d.rest)| == d.value))
    ensures var (f, l) := (ParseFrame(z, threshold, s), ParseLeb(s, 3, PacketTooLarge));
            f.Ok? ==>
              && f.rest == l.rest[l.value..]
              && var raw := l.rest[..l.value];
                 f.value == if threshold < 0 then raw
                            else var d := ParseVarInt(raw); if d.value == 0 then d.rest else z.inflate(d.rest)
  {
    hide ParseLeb, ParseVarInt;
    FrameParse(z, threshold, s);
  }

  // ---- The encrypted stream: one side's state and whole runs ----

  /** A direction's cipher: the block function and its current register. */
  datatype Layer = Layer(e: BlockCipher, reg: seq<u8>)

  type Cipher = Option<Layer>

  predicate ValidCipher(c: Cipher) { c.Some? ==> c.value.reg != [] }

  function Through(c: Cipher, decrypt: bool, b: seq<u8>): (r: seq<u8>)
    requires ValidCipher(c)
    ensures |r| == |b|
  {
    if c.None? then b else Output(c.value.e, decrypt, c.value.reg, b)
  }

  function Advance(c: Cipher, decrypt: bool, b: seq<u8>): (r: Cipher)
    requires ValidCipher(c)
    ensures ValidCipher(r) && (r.None? <==> c.None?)
  {
    if c.None? then None else Some(Layer(c.value.e, Register(c.value.e, decrypt, c.value.reg, b)))
  }

  lemma ThroughSplit(c: Cipher, decrypt: bool, a: seq<u8>, b: seq<u8>)
    requires ValidCipher(c)
    ensures Through(c, decrypt, a + b) == Through(c, decrypt, a) + Through(Advance(c, decrypt, a), decrypt, b)
    ensures Advance(c, decrypt, a + b) == Advance(Advance(c, decrypt, a), decrypt, b)
  {
    if c.Some? {
      SplitStream(c.value.e, decrypt, c.value.reg, a, b);
    }
  }

  lemma ThroughInverts(c: Cipher, b: seq<u8>)
    requires ValidCipher(c)
    ensures Through(c, true, Through(c, false, b)) == b
    ensures Advance(c, true, Through(c, false, b)) == Advance(c, false, b)
  {
    if c.Some? {
      DecryptInverts(c.value.e, c.value.reg, b);
    }
  }

  /** What the two ends do at one packet boundary: send one body, or switch modes.
    * The thresholds of the two ends only have to agree in sign. */
  datatype Action =
    | Send(body: seq<u8>)
    | Compress(ts: int, tr: int)
    | Encrypt(secret: seq<u8>)

  datatype End = End(threshold: int, cipher: Cipher)

  /** Everything the sender puts on the wire. */
  function WireOf(z: Lib, st: End, run: seq<Action>): seq<u8>
    requires ValidCipher(st.cipher)
    decreases run
  {
    if run == [] then []
    else match run[0]
      case Send(body) =>
        var f := FrameBytes(z, st.threshold, body);
        Through(st.cipher, false, f)
        + WireOf(z, st.(cipher := Advance(st.cipher, false, f)), run[1..])
      case Compress(ts, _) => WireOf(z, st.(threshold := ts), run[1..])
      case Encrypt(secret) =>
        if |secret| != SECRET_SIZE then WireOf(z, st, run[1..])
        else WireOf(z, st.(cipher := Some(Layer(z.aes(secret), secret))), run[1..])
  }

  datatype Reading = Reading(ok: bool, bodies: seq<seq<u8>>, rest: seq<u8>)

  /** The receiver mirrors the run at the same packet boundaries. */
  function ReadRun(z: Lib, st: End, run: seq<Action>, wire: seq<u8>): Reading
    requires ValidCipher(st.cipher)
    decreases run
  {
    if run == [] then Reading(true, [], wire)
    else match run[0]
      case Send(_) =>
        var p := ParseFrame(z, st.threshold, Through(st.cipher, true, wire));
        if p.Err? || |p.rest| > |wire| then Reading(false, [], wire)
        else
          var n := |wire| - |p.rest|;
          var r := ReadRun(z, st.(cipher := Advance(st.cipher, true, wire[..n])), run[1..], wire[n..]);
          r.(bodies := [p.value] + r.bodies)
      case Compress(_, tr) => ReadRun(z, st.(threshold := tr), run[1..], wire)
      case Encrypt(secret) =>
        if |secret| != SECRET_SIZE then ReadRun(z, st, run[1..], wire)
        else ReadRun(z, st.(cipher := Some(Layer(z.aes(secret), secret))), run[1..], wire)
  }

  function Bodies(run: seq<Action>): seq<seq<u8>> {
    if run == [] then []
    else if run[0].Send? then [run[0].body] + Bodies(run[1..])
    else Bodies(run[1..])
  }

  /** Thresholds agree in sign, and encryption starts at most once. */
  predicate Mirrored(encrypted: bool, run: seq<Action>)
    decreases run
  {
    run == [] ||
    match run[0]
    case Send(body) => Mirrored(encrypted, run[1..])
    case Compress(ts, tr) => (ts < 0 <==> tr < 0) && Mirrored(encrypted, run[1..])
    case Encrypt(secret) => !encrypted && |secret| == SECRET_SIZE && Mirrored(true, run[1..])
  }

  /** Every body fits when it is sent. */
  predicate AllFit(z: Lib, threshold: int, run: seq<Action>)
    decreases run
  {
    run == [] ||
    match run[0]
    case Send(body) => FrameFits(z, threshold, body) && AllFit(z, threshold, run[1..])
    case Compress(ts, _) => AllFit(z, ts, run[1..])
    case Encrypt(_) => AllFit(z, threshold, run[1..])
  }

  predicate GoodRun(z: Lib, threshold: int, encrypted: bool, run: seq<Action>) {
    Mirrored(encrypted, run) && AllFit(z, threshold, run)
  }

  /** For every run, reading the sender's bytes returns exactly the sent bodies in
    * order and leaves exactly what follows them on the wire. */
  lemma {:induction false} RunReadsBack(z: Lib, s: End, r: End, run: seq<Action>, after: seq<u8>)
    requires ZlibLaws(z) && ValidCipher(s.cipher) && s.cipher == r.cipher
    requires (s.threshold < 0 <==> r.threshold < 0) && GoodRun(z, s.threshold, s.cipher.Some?, run)
    ensures ReadRun(z, r, run, WireOf(z, s, run) + after) == Reading(true, Bodies(run), after)
    decreases run
  {
    if run == [] {
      assert WireOf(z, s, run) + after == after;
    } else {
      match run[0] {
        case Send(body) => SendReadsBack(z, s, r, run, after);
        case Compress(ts, tr) =>
          RunReadsBack(z, s.(threshold := ts), r.(threshold := tr), run[1..], after);
        case Encrypt(secret) =>
          var c := Some(Layer(z.aes(secret), secret));
          RunReadsBack(z, s.(cipher := c), r.(cipher := c), run[1..], after);
      }
    }
  }

  lemma {:induction false} SendReadsBack(z: Lib, s: End, r: End, run: seq<Action>, after: seq<u8>)
    requires ZlibLaws(z) && ValidCipher(s.cipher) && s.cipher == r.cipher
    requires (s.threshold < 0 <==> r.threshold < 0) && GoodRun(z, s.threshold, s.cipher.Some?, run)
    requires run != [] && run[0].Send?
    ensures ReadRun(z, r, run, WireOf(z, s, run) + after) == Reading(true, Bodies(run), after)
    decreases run, 0
  {
    hide FrameBytes, ParseFrame, FrameFits;
    var f := FrameBytes(z, s.threshold, run[0].body);
    var enc := Through(s.cipher, false, f);
    var s' := s.(cipher := Advance(s.cipher, false, f));
    var tail := WireOf(z, s', run[1..]) + after;
    var wire := WireOf(z, s, run) + after;
    assert wire == enc + tail;
    OneFrame(z, s.threshold, r.threshold, s.cipher, run[0].body, tail);
    var p := ParseFrame(z, r.threshold, Through(r.cipher, true, wire));
    assert |wire| - |p.rest| == |enc| && wire[..|enc|] == enc && wire[|enc|..] == tail;
    RunReadsBack(z, s', r.(cipher := Advance(s.cipher, false, f)), run[1..], after);
  }

  lemma OneFrame(z: Lib, ts: int, tr: int, c: Cipher, body: seq<u8>, tail: seq<u8>)
    requires ZlibLaws(z) && ValidCipher(c) && (ts < 0 <==> tr < 0) && FrameFits(z, ts, body)
    ensures var f := FrameBytes(z, ts, body);
            var enc := Through(c, false, f);
            && |enc| == |f|
            && ParseFrame(z, tr, Through(c, true, enc + tail))
               == Ok(body, Through(Advance(c, true, enc), true, tail))
            && Advance(c, true, enc) == Advance(c, false, f)
  {
    hide FrameBytes, ParseFrame, FrameFits, Through, Advance;
    var f := FrameBytes(z, ts, body);
    var enc := Through(c, false, f);
    ThroughInverts(c, f);
    ThroughSplit(c, true, enc, tail);
    FrameRoundTripIff(z, ts, tr, body, Through(Advance(c, true, enc), true, tail));
  }

  function Frames(z: Lib, threshold: int, bodies: seq<seq<u8>>): seq<u8> {
    if bodies == [] then [] else FrameBytes(z, threshold, bodies[0]) + Frames(z, threshold, bodies[1..])
  }

  function Sends(bodies: seq<seq<u8>>): seq<Action> {
    seq(|bodies|, i requires 0 <= i < |bodies| => Send(bodies[i]))
  }

  /** Between switches the frames are one stream through one cipher state, not restarted at each. */
  lemma {:induction false} OneStream(z: Lib, s: End, bodies: seq<seq<u8>>)
    requires ValidCipher(s.cipher)
    ensures WireOf(z, s, Sends(bodies)) == Through(s.cipher, false, Frames(z, s.threshold, bodies))
    decreases bodies
  {
    hide FrameBytes, Through, Advance;
    if bodies == [] {
      assert |Through(s.cipher, false, [])| == 0;
    } else {
      var f := FrameBytes(z, s.threshold, bodies[0]);
      var s' := s.(cipher := Advance(s.cipher, false, f));
      assert Sends(bodies)[0] == Send(bodies[0]) && Sends(bodies)[1..] == Sends(bodies[1..]);
      OneStream(z, s', bodies[1..]);
      ThroughSplit(s.cipher, false, f, Frames(z, s.threshold, bodies[1..]));
    }
  }

  /** A mirrored run reads back exactly when every body fits when it is sent. */
  lemma RunReadsBackIff(z: Lib, s: End, r: End, run: seq<Action>, after: seq<u8>)
    requires ZlibLaws(z) && DeflateBounded(z) && ValidCipher(s.cipher) && s.cipher == r.cipher
    requires (s.threshold < 0 <==> r.threshold < 0) && Mirrored(s.cipher.Some?, run)
    ensures ReadRun(z, r, run, WireOf(z, s, run) + after) == Reading(true, Bodies(run), after)
            <==> AllFit(z, s.threshold, run)
  {
    hide WireOf, ReadRun, AllFit, Mirrored, Bodies;
    if AllFit(z, s.threshold, run) {
      RunReadsBack(z, s, r, run, after);
    } else {
      UnfitRun(z, s, r, run, after);
    }
  }

  /** At the first body that does not fit the reader fails or gets another body. */
  lemma {:induction false} UnfitRun(z: Lib, s: End, r: End, run: seq<Action>, after: seq<u8>)
    requires ZlibLaws(z) && DeflateBounded(z) && ValidCipher(s.cipher) && s.cipher == r.cipher
    requires (s.threshold < 0 <==> r.threshold < 0) && Mirrored(s.cipher.Some?, run) && !AllFit(z, s.threshold, run)
    ensures var got := ReadRun(z, r, run, WireOf(z, s, run) + after); got.ok ==> got.bodies != Bodies(run)
    decreases run
  {
    match run[0] {
      case Send(body) =>
        if FrameFits(z, s.threshold, body) {
          FitBeforeUnfit(z, s, r, run, after);
        } else {
          UnfitFirst(z, s, r, run, after);
        }
      case Compress(ts, tr) =>
        UnfitRun(z, s.(threshold := ts), r.(threshold := tr), run[1..], after);
      case Encrypt(secret) =>
        var c := Some(Layer(z.aes(secret), secret));
        UnfitRun(z, s.(cipher := c), r.(cipher := c), run[1..], after);
    }
  }

  lemma {:induction false} FitBeforeUnfit(z: Lib, s: End, r: End, run: seq<Action>, after: seq<u8>)
    requires ZlibLaws(z) && DeflateBounded(z) && ValidCipher(s.cipher) && s.cipher == r.cipher
    requires (s.threshold < 0 <==> r.threshold < 0) && Mirrored(s.cipher.Some?, run) && !AllFit(z, s.threshold, run)
    requires run != [] && run[0].Send? && FrameFits(z, s.threshold, run[0].body)
    ensures var got := ReadRun(z, r, run, WireOf(z, s, run) + after); got.ok ==> got.bodies != Bodies(run)
    decreases run, 0
  {
    hide FrameBytes, ParseFrame, FrameFits, ZlibLaws, DeflateBounded;
    var f := FrameBytes(z, s.threshold, run[0].body);
    var enc := Through(s.cipher, false, f);
    var s' := s.(cipher := Advance(s.cipher, false, f));
    var tail := WireOf(z, s', run[1..]) + after;
    var wire := WireOf(z, s, run) + after;
    assert wire == enc + tail;
    OneFrame(z, s.threshold, r.threshold, s.cipher, run[0].body, tail);
    var p := ParseFrame(z, r.threshold, Through(r.cipher, true, wire));
    assert |wire| - |p.rest| == |enc| && wire[..|enc|] == enc && wire[|enc|..] == tail;
    UnfitRun(z, s', r.(cipher := Advance(s.cipher, false, f)), run[1..], after);
    var next := ReadRun(z, r.(cipher := Advance(s.cipher, false, f)), run[1..], tail);
    LaterDiffers(p.value, next.bodies, Bodies(run[1..]));
  }

  lemma LaterDiffers(b: seq<u8>, x: seq<seq<u8>>, y: seq<seq<u8>>)
    ensures [b] + x == [b] + y ==> x == y
  {
    assert ([b] + x)[1..] == x && ([b] + y)[1..] == y;
  }

  lemma UnfitFirst(z: Lib, s: End, r: End, run: seq<Action>, after: seq<u8>)
    requires ZlibLaws(z) && DeflateBounded(z) && ValidCipher(s.cipher) && s.cipher == r.cipher
    requires (s.threshold < 0 <==> r.threshold < 0) && run != [] && run[0].Send?
    requires !FrameFits(z, s.threshold, run[0].body)
    ensures var got := ReadRun(z, r, run, WireOf(z, s, run) + after); got.ok ==> got.bodies != Bodies(run)
  {
    hide FrameBytes, ParseFrame, FrameFits, ZlibLaws, DeflateBounded, Through, Advance;
    var f := FrameBytes(z, s.threshold, run[0].body);
    var enc := Through(s.cipher, false, f);
    var tail := WireOf(z, s.(cipher := Advance(s.cipher, false, f)), run[1..]) + after;
    var wire := WireOf(z, s, run) + after;
    assert wire == enc + tail;
    ThroughInverts(s.cipher, f);
    ThroughSplit(s.cipher, true, enc, tail);
    UnfitNeverItself(z, s.threshold, r.threshold, run[0].body, Through(Advance(s.cipher, true, enc), true, tail));
    FirstDiffers(z, r, run, wire);
  }

  lemma FirstDiffers(z: Lib, r: End, run: seq<Action>, wire: seq<u8>)
    requires ValidCipher(r.cipher) && run != [] && run[0].Send?
    requires var p := ParseFrame(z, r.threshold, Through(r.cipher, true, wire)); p.Ok? ==> p.value != run[0].body
    ensures var got := ReadRun(z, r, run, wire); got.ok ==> got.bodies != Bodies(run)
  {
    hide ParseFrame, Through, Advance;
    var got := ReadRun(z, r, run, wire);
    if got.ok {
      assert got.bodies[0] != run[0].body == Bodies(run)[0];
    }
  }

  // ---- The connection ----

  /** `n` bytes of the wire `w0` taken through the cipher state `c0` leave `w1` and `c1`. */
  ghost predicate Took(w0: seq<u8>, c0: Cipher, n: nat, w1: seq<u8>, c1: Cipher)
    requires ValidCipher(c0)
  {
    n <= |w0| && w1 == w0[n..] && c1 == Advance(c0, true, w0[..n])
  }

  /** Taking bytes off the wire takes the same bytes off the decrypted stream. */
  lemma TookPlain(w0: seq<u8>, c0: Cipher, n: nat, w1: seq<u8>, c1: Cipher)
    requires ValidCipher(c0) && Took(w0, c0, n, w1, c1)
    ensures Through(c0, true, w0)[..n] == Through(c0, true, w0[..n])
    ensures Through(c0, true, w0)[n..] == Through(c1, true, w1)
  {
    hide Through, Advance;
    assert w0 == w0[..n] + w1;
    ThroughSplit(c0, true, w0[..n], w1);
  }

  lemma TookNothing(w: seq<u8>, c: Cipher)
    requires ValidCipher(c)
    ensures Took(w, c, 0, w, c) && Through(c, true, w[..0]) == []
  {
  }

  lemma TookBoth(w0: seq<u8>, c0: Cipher, n: nat, w1: seq<u8>, c1: Cipher, m: nat, w2: seq<u8>, c2: Cipher)
    requires ValidCipher(c0) && Took(w0, c0, n, w1, c1)
    requires ValidCipher(c1) && Took(w1, c1, m, w2, c2)
    ensures Took(w0, c0, n + m, w2, c2)
    ensures Through(c0, true, w0[..n + m]) == Through(c0, true, w0[..n]) + Through(c1, true, w1[..m])
  {
    hide Through, Advance;
    assert w0[..n + m] == w0[..n] + w1[..m];
    ThroughSplit(c0, true, w0[..n], w1[..m]);
  }

  class Conn {
    const lib: Lib
    var inbox: seq<u8>   // wire bytes not read yet
    var outbox: seq<u8>  // wire bytes written so far
    var threshold: int
    var reader: Stream?
    var writer: Stream?

    ghost predicate Valid()
      reads this, Streams()
    {
      && (reader == null <==> writer == null)
      && (reader != null ==> reader.Valid() && reader.decrypt)
      && (writer != null ==> writer.Valid() && !writer.decrypt)
      && (reader != null && writer != null ==> reader != writer && reader.sr != writer.sr)
    }

    ghost function Streams(): set<object>
      reads this`reader, this`writer
    {
      (if reader == null then {} else {reader, reader.sr}) + (if writer == null then {} else {writer, writer.sr})
    }

    ghost function ReadSide(): (c: Cipher)
      requires Valid()
      reads this, Streams()
      ensures ValidCipher(c)
    {
      if reader == null then None else Some(Layer(reader.block, reader.Window()))
    }

    ghost function WriteSide(): (c: Cipher)
      requires Valid()
      reads this, Streams()
      ensures ValidCipher(c)
    {
      if writer == null then None else Some(Layer(writer.block, writer.Window()))
    }

    /** What the unread wire bytes decrypt to. */
    ghost function Plain(): (r: seq<u8>)
      requires Valid()
      reads this, Streams()
      ensures |r| == |inbox|
    {
      Through(ReadSide(), true, inbox)
    }

    constructor (lib: Lib, inbox: seq<u8>)
      ensures Valid() && this.lib == lib && this.inbox == inbox && outbox == []
      ensures threshold == COMPRESSION_DISABLED == -1 && reader == null
    {
      this.lib, this.inbox, outbox, threshold := lib, inbox, [], COMPRESSION_DISABLED;
      reader, writer := null, null;
    }

    method SetCompressionThreshold(t: int)
      modifies this`threshold
      ensures threshold == t
    {
      threshold := t;
    }

    /** Both directions continue under the secret as key and IV, from the next byte on. */
    method EnableEncryption(secret: seq<u8>) returns (ok: bool)
      requires Valid() && reader == null
      modifies this`reader, this`writer
      ensures Valid() && fresh(Streams()) && (ok <==> |secret| == 16)
      ensures ok ==> ReadSide() == WriteSide() == Some(Layer(lib.aes(secret), secret))
      ensures !ok ==> reader == null
    {
      if |secret| != SECRET_SIZE {
        return false;
      }
      var block := lib.aes(secret);
      reader := new Stream(block, secret, true);
      writer := new Stream(block, secret, false);
      ok := true;
    }

    /** Fills `n` bytes from reads of any size, decrypting each chunk in place. */
    method ReadFull(n: nat) returns (b: seq<u8>, ok: bool)
      requires Valid()
      modifies this`inbox, Streams()
      ensures Valid() && (ok <==> n <= |old(inbox)|)
      ensures ok ==> Took(old(inbox), old(ReadSide()), n, inbox, ReadSide()) && b == old(Plain())[..n]
    {
      hide Through, Advance, Took, ReadSide, Valid;
      b := [];
      ghost var w0, c0 := inbox, ReadSide();
      TookNothing(w0, c0);
      while |b| < n
        invariant Valid() && |b| <= n && |b| + |inbox| == |w0| && Streams() == old(Streams())
        invariant Took(w0, c0, |b|, inbox, ReadSide()) && b == Through(c0, true, w0[..|b|])
        decreases n - |b|
      {
        if inbox == [] {
          return b, false;
        }
        var k :| 1 <= k <= n - |b| && k <= |inbox|;
        ghost var w1, c1 := inbox, ReadSide();
        var chunk := ReadChunk(k);
        TookBoth(w0, c0, |b|, w1, c1, k, inbox, ReadSide());
        b := b + chunk;
      }
      ok := true;
      TookPlain(w0, c0, n, inbox, ReadSide());
    }

    /** One read of the underlying connection, through the stream cipher when there is one. */
    method ReadChunk(k: nat) returns (b: seq<u8>)
      requires Valid() && k <= |inbox|
      modifies this`inbox, Streams()
      ensures Valid() && Took(old(inbox), old(ReadSide()), k, inbox, ReadSide())
      ensures b == Through(old(ReadSide()), true, old(inbox)[..k]) && inbox == old(inbox)[k..]
    {
      hide Output, Register;
      b := inbox[..k];
      inbox := inbox[k..];
      if reader != null {
        var buf := new u8[|b|](i requires 0 <= i < |b| => b[i]);
        assert buf[..] == b;
        reader.XORKeyStream(buf, buf);
        assert buf[..] == buf[..k];
        b := buf[..];
      }
    }

    /** A read that started with `w0` unread and the cipher state `c0` did what the
      * parse `p` of the decrypted stream says, and took exactly the parsed bytes. */
    ghost predicate DidRead<T>(p: Parsed<T>, v: T, err: Option<Error>, w0: seq<u8>, c0: Cipher)
      requires Valid() && ValidCipher(c0)
      reads this, Streams()
    {
      if p.Err? then err == Some(p.error)
      else
        && err.None? && v == p.value && Plain() == p.rest
        && |p.rest| <= |w0| && Took(w0, c0, |w0| - |p.rest|, inbox, ReadSide())
    }

    /** The byte at `i` of the decrypted stream `s0`, when the bytes before it have been read. */
    method ReadByte(ghost w0: seq<u8>, ghost c0: Cipher, ghost s0: seq<u8>, ghost i: nat) returns (b: u8, ok: bool)
      requires Valid() && ValidCipher(c0) && i <= |w0| == |s0|
      requires Took(w0, c0, i, inbox, ReadSide()) && Plain() == s0[i..]
      modifies this`inbox, Streams()
      ensures Valid() && Streams() == old(Streams()) && (ok <==> i < |w0|)
      ensures ok ==> b == s0[i] && Took(w0, c0, i + 1, inbox, ReadSide()) && Plain() == s0[i + 1..]
    {
      hide Through, Advance, Took, ReadSide, Valid;
      ghost var w1, c1 := inbox, ReadSide();
      var buf, full := ReadFull(1);
      if !full {
        return 0, false;
      }
      TookPlain(w1, c1, 1, inbox, ReadSide());
      TookBoth(w0, c0, i, w1, c1, 1, inbox, ReadSide());
      assert s0[i..][1..] == s0[i + 1..];
      assert buf[0] == s0[i..][..1][0];
      return buf[0], true;
    }

    /** The length VarInt, which may take at most three bytes. */
    method ReadLength() returns (n: nat, err: Option<Error>)
      requires Valid()
      modifies this`inbox, Streams()
      ensures Valid() && Streams() == old(Streams())
      ensures DidRead(ParseLeb(old(Plain()), MAX_LEN_BYTES, PacketTooLarge), n, err, old(inbox), old(ReadSide()))
    {
      hide Through, Advance, Took, ParseLeb, Spliced, Pow2, ReadSide, Valid, Times, Plain;
      ghost var w0, c0, s0 := inbox, ReadSide(), Plain();
      var scale: nat := 1;  // 2^shift
      n := 0;
      TookNothing(w0, c0);
      SplicedEnds(s0, 0, 1, MAX_LEN_BYTES, PacketTooLarge);
      for i := 0 to MAX_LEN_BYTES
        invariant Valid() && Streams() == old(Streams())
        invariant i <= |w0| && Took(w0, c0, i, inbox, ReadSide()) && Plain() == s0[i..]
        invariant ParseLeb(s0, MAX_LEN_BYTES, PacketTooLarge)
                  == Spliced(n, scale, ParseLeb(s0[i..], MAX_LEN_BYTES - i, PacketTooLarge))
      {
        SplicedEnds(s0[i..], n, scale, MAX_LEN_BYTES - i, PacketTooLarge);
        var b, ok := ReadByte(w0, c0, s0, i);
        if !ok {
          return 0, Some(Truncated);
        }
        assert s0[i..][0] == b && s0[i..][1..] == s0[i + 1..];
        var g := Times(b % 128, scale);
        GroupStep(s0[i..], n, scale, MAX_LEN_BYTES - i, PacketTooLarge, g);
        n := n + g;
        if b < 128 {
          return n, None;
        }
        scale := scale * 128;
      }
      SplicedEnds(s0[MAX_LEN_BYTES..], n, scale, 0, PacketTooLarge);
      n, err := 0, Some(PacketTooLarge);
    }

    /** One packet: the parse of the decrypted stream under the current threshold. */
    method ReadPacket() returns (body: seq<u8>, err: Option<Error>)
      requires Valid()
      modifies this`inbox, Streams()
      ensures Valid() && Streams() == old(Streams())
      ensures DidRead(ParseFrame(lib, threshold, old(Plain())), body, err, old(inbox), old(ReadSide()))
    {
      hide Through, Advance, Took, ParseLeb, Unwrap, ParseFrame, ReadSide, Valid;
      ghost var w0, c0, s0 := inbox, ReadSide(), Plain();
      FrameParse(lib, threshold, s0);
      var n, lengthErr := ReadLength();
      if lengthErr.Some? {
        return [], lengthErr;
      }
      if n < 1 || n > MAX_PACKET_SIZE {
        return [], Some(BadLength);
      }
      ghost var w1, c1, s1 := inbox, ReadSide(), Plain();
      var raw, ok := ReadFull(n);
      if !ok {
        return [], Some(Truncated);
      }
      TookPlain(w1, c1, n, inbox, ReadSide());
      TookBoth(w0, c0, |w0| - |s1|, w1, c1, n, inbox, ReadSide());
      body, err := Inflate(raw);
    }

    /** Undoes the compressed framing of one frame. */
    method Inflate(raw: seq<u8>) returns (body: seq<u8>, err: Option<Error>)
      ensures var p := Unwrap(lib, threshold, raw);
              if p.Err? then err == Some(p.error) else err.None? && body == p.value
    {
      hide ParseVarInt;
      if threshold < 0 {
        return raw, None;
      }
      var rr := new Reader(raw);
      var dataLen := rr.VarInt();
      if rr.err.Some? {
        return [], rr.err;
      }
      var payload := raw[rr.pos..];
      if dataLen == 0 {
        return payload, None;
      }
      if dataLen < 0 || dataLen > MAX_UNCOMPRESSED {
        return [], Some(PacketTooLarge);
      }
      var out := lib.inflate(payload);
      if |out| < dataLen {
        return [], Some(BadZlib);
      }
      if |out| > dataLen {
        return [], Some(SizeMismatch);
      }
      return out, None;
    }

    /** Appends one frame to the wire, through the stream cipher when there is one. */
    method WritePacket(body: seq<u8>)
      requires Valid()
      modifies this`outbox, Streams()
      ensures Valid() && Streams() == old(Streams())
      ensures var f := FrameBytes(lib, threshold, body);
              && outbox == old(outbox) + Through(old(WriteSide()), false, f)
              && WriteSide() == Advance(old(WriteSide()), false, f)
    {
      hide FrameBytes, Through, Advance, WriteSide, Valid;
      ghost var side := WriteSide();
      var b := Framed(body);
      assert Valid() && WriteSide() == side;
      WriteAll(b);
    }

    /** The bytes of one frame under the current threshold. */
    method Framed(body: seq<u8>) returns (b: seq<u8>)
      ensures b == FrameBytes(lib, threshold, body)
    {
      hide VarIntBytes;
      if threshold < 0 {
        b := Prefixed(AsI32(|body|), body);
        return;
      }
      var inner;
      if |body| < threshold {
        inner := Prefixed(0, body);
      } else {
        inner := Prefixed(AsI32(|body|), lib.deflate(body));
      }
      b := Prefixed(AsI32(|inner|), inner);
    }

    method Prefixed(v: i32, payload: seq<u8>) returns (b: seq<u8>)
      ensures b == VarIntBytes(v) + payload
    {
      hide VarIntBytes;
      var w := new Writer();
      w.VarInt(v);
      w.Raw(payload);
      assert [] + VarIntBytes(v) == VarIntBytes(v);
      b := w.buf;
    }

    method WriteAll(b: seq<u8>)
      requires Valid()
      modifies this`outbox, Streams()
      ensures Valid() && Streams() == old(Streams())
      ensures outbox == old(outbox) + Through(old(WriteSide()), false, b)
      ensures WriteSide() == Advance(old(WriteSide()), false, b)
    {
      hide Output, Register;
      if writer == null {
        outbox := outbox + b;
      } else {
        var src := new u8[|b|](i requires 0 <= i < |b| => b[i]);
        var dst := new u8[|b|](_ => 0);
        assert src[..] == b;
        writer.XORKeyStream(dst, src);
        assert dst[..] == dst[..|b|];
        outbox := outbox + dst[..];
      }
    }

    // ---- Whole runs on a connection ----

    ghost function Sending(): End
      requires Valid()
      reads this, Streams()
    {
      End(threshold, WriteSide())
    }

    ghost function Receiving(): End
      requires Valid()
      reads this, Streams()
    {
      End(threshold, ReadSide())
    }

    /** The sender's side of a run. */
    method Performs(run: seq<Action>)
      requires Valid() && EncryptsOnce(writer != null, run)
      modifies this, Streams()
      ensures Valid() && fresh(Streams() - old(Streams()))
      ensures outbox == old(outbox) + WireOf(lib, old(Sending()), run)
    {
      hide WireOf, Through, Advance, EncryptsOnce, WriteSide, Valid;
      ghost var wire := outbox + WireOf(lib, Sending(), run);
      assert run[0..] == run;
      for i := 0 to |run|
        invariant Valid() && fresh(Streams() - old(Streams())) && EncryptsOnce(writer != null, run[i..])
        invariant outbox + WireOf(lib, Sending(), run[i..]) == wire
      {
        assert run[i..][0] == run[i] && run[i..][1..] == run[i + 1..];
        PerformsOne(run[i], run[i..]);
      }
      WireEnd(lib, Sending(), outbox);
      assert run[|run|..] == [];
    }

    method PerformsOne(a: Action, ghost run: seq<Action>)
      requires run != [] && run[0] == a && Valid() && EncryptsOnce(writer != null, run)
      modifies this, Streams()
      ensures Valid() && fresh(Streams() - old(Streams())) && EncryptsOnce(writer != null, run[1..])
      ensures outbox + WireOf(lib, Sending(), run[1..]) == old(outbox) + WireOf(lib, old(Sending()), run)
    {
      hide WireOf, Through, Advance, FrameBytes;
      WireStep(lib, Sending(), run, outbox);
      match a {
        case Send(body) => WritePacket(body);
        case Compress(ts, _) => SetCompressionThreshold(ts);
        case Encrypt(secret) => var _ := EnableEncryption(secret);
      }
    }

    /** The receiver's side: the bodies of a run, unless a packet cannot be read. */
    method Receives(run: seq<Action>) returns (bodies: seq<seq<u8>>, ok: bool)
      requires Valid() && EncryptsOnce(reader != null, run)
      modifies this, Streams()
      ensures Valid() && fresh(Streams() - old(Streams()))
      ensures var r := ReadRun(lib, old(Receiving()), run, old(inbox));
              r.ok == ok && (ok ==> r.bodies == bodies && r.rest == inbox)
    {
      hide ReadRun, Through, Advance, EncryptsOnce, ReadSide, Valid;
      ghost var whole := After([], ReadRun(lib, Receiving(), run, inbox));
      bodies := [];
      assert run[0..] == run;
      for i := 0 to |run|
        invariant Valid() && fresh(Streams() - old(Streams())) && EncryptsOnce(reader != null, run[i..])
        invariant whole == After(bodies, ReadRun(lib, Receiving(), run[i..], inbox))
      {
        assert run[i..][0] == run[i] && run[i..][1..] == run[i + 1..];
        bodies, ok := ReceivesOne(run[i], run[i..], bodies);
        if !ok {
          return;
        }
      }
      ReadEnd(lib, Receiving(), inbox, bodies);
      assert run[|run|..] == [];
      ok := true;
    }

    method ReceivesOne(a: Action, ghost run: seq<Action>, before: seq<seq<u8>>)
      returns (bodies: seq<seq<u8>>, ok: bool)
      requires run != [] && run[0] == a && Valid() && EncryptsOnce(reader != null, run)
      modifies this, Streams()
      ensures Valid() && fresh(Streams() - old(Streams())) && EncryptsOnce(reader != null, run[1..])
      ensures var r := After(before, ReadRun(lib, old(Receiving()), run, old(inbox)));
              if ok then r == After(bodies, ReadRun(lib, Receiving(), run[1..], inbox)) else !r.ok
    {
      hide ReadRun, Through, Advance, ParseFrame, After, Took;
      ReadStep(lib, Receiving(), run, inbox, before);
      bodies, ok := before, true;
      match a {
        case Send(_) =>
          ghost var w0, c0, p := inbox, ReadSide(), ParseFrame(lib, threshold, Plain());
          var body, err := ReadPacket();
          if err.Some? {
            return bodies, false;
          }
          TookExactly(w0, c0, |w0| - |p.rest|, inbox, ReadSide());
          bodies := bodies + [body];
        case Compress(_, tr) => SetCompressionThreshold(tr);
        case Encrypt(secret) => var _ := EnableEncryption(secret);
      }
    }
  }

  lemma TookExactly(w0: seq<u8>, c0: Cipher, n: nat, w1: seq<u8>, c1: Cipher)
    requires ValidCipher(c0) && Took(w0, c0, n, w1, c1)
    ensures n <= |w0| && w1 == w0[n..] && c1 == Advance(c0, true, w0[..n])
  {
  }

  /** Encryption is switched on at most once. */
  predicate EncryptsOnce(encrypted: bool, run: seq<Action>)
    decreases run
  {
    run == []
    || (if run[0].Encrypt? then !encrypted && EncryptsOnce(|run[0].secret| == SECRET_SIZE, run[1..])
        else EncryptsOnce(encrypted, run[1..]))
  }

  /** A reading with the bodies before it. */
  function After(bodies: seq<seq<u8>>, r: Reading): Reading {
    Reading(r.ok, if r.ok then bodies + r.bodies else [], if r.ok then r.rest else [])
  }

  lemma WireStep(z: Lib, st: End, run: seq<Action>, out: seq<u8>)
    requires ValidCipher(st.cipher) && run != []
    ensures match run[0]
            case Send(body) =>
              var f := FrameBytes(z, st.threshold, body);
              out + WireOf(z, st, run)
              == out + Through(st.cipher, false, f) + WireOf(z, st.(cipher := Advance(st.cipher, false, f)), run[1..])
            case Compress(ts, _) => WireOf(z, st, run) == WireOf(z, st.(threshold := ts), run[1..])
            case Encrypt(secret) =>
              WireOf(z, st, run)
              == if |secret| != SECRET_SIZE then WireOf(z, st, run[1..])
                 else WireOf(z, st.(cipher := Some(Layer(z.aes(secret), secret))), run[1..])
  {
    hide FrameBytes, Through, Advance;
  }

  lemma WireEnd(z: Lib, st: End, out: seq<u8>)
    requires ValidCipher(st.cipher)
    ensures out + WireOf(z, st, []) == out
  {
  }

  lemma ReadStep(z: Lib, st: End, run: seq<Action>, wire: seq<u8>, bodies: seq<seq<u8>>)
    requires ValidCipher(st.cipher) && run != []
    ensures var r := After(bodies, ReadRun(z, st, run, wire));
            match run[0]
            case Send(_) =>
              var p := ParseFrame(z, st.threshold, Through(st.cipher, true, wire));
              if p.Err? || |p.rest| > |wire| then !r.ok
              else
                var n := |wire| - |p.rest|;
                r == After(bodies + [p.value],
                           ReadRun(z, st.(cipher := Advance(st.cipher, true, wire[..n])), run[1..], wire[n..]))
            case Compress(_, tr) => r == After(bodies, ReadRun(z, st.(threshold := tr), run[1..], wire))
            case Encrypt(secret) =>
              r == After(bodies,
                         if |secret| != SECRET_SIZE then ReadRun(z, st, run[1..], wire)
                         else ReadRun(z, st.(cipher := Some(Layer(z.aes(secret), secret))), run[1..], wire))
  {
    hide ParseFrame, Through, Advance;
    if run[0].Send? {
      var p := ParseFrame(z, st.threshold, Through(st.cipher, true, wire));
      if p.Ok? && |p.rest| <= |wire| {
        var n := |wire| - |p.rest|;
        var r := ReadRun(z, st.(cipher := Advance(st.cipher, true, wire[..n])), run[1..], wire[n..]);
        assert bodies + [p.value] + r.bodies == bodies + ([p.value] + r.bodies);
      }
    }
  }

  lemma ReadEnd(z: Lib, st: End, wire: seq<u8>, bodies: seq<seq<u8>>)
    requires ValidCipher(st.cipher)
    ensures After(bodies, ReadRun(z, st, [], wire)) == Reading(true, bodies, wire)
  {
    assert bodies + [] == bodies;
  }

  lemma {:induction false} MirroredEncryptsOnce(encrypted: bool, run: seq<Action>)
    requires Mirrored(encrypted, run)
    ensures EncryptsOnce(encrypted, run)
    decreases run
  {
    if run != [] {
      MirroredEncryptsOnce(encrypted || run[0].Encrypt?, run[1..]);
    }
  }

  /** Two fresh connections over one wire: what one sends in a good run the other receives. */
  method Exchange(lib: Lib, run: seq<Action>, after: seq<u8>) returns (bodies: seq<seq<u8>>, rest: seq<u8>, ok: bool)
    requires ZlibLaws(lib) && GoodRun(lib, COMPRESSION_DISABLED, false, run)
    ensures ok && bodies == Bodies(run) && rest == after
  {
    hide WireOf, ReadRun, Mirrored, AllFit, EncryptsOnce, Bodies;
    MirroredEncryptsOnce(false, run);
    var sender := new Conn(lib, []);
    ghost var start := sender.Sending();
    sender.Performs(run);
    var receiver := new Conn(lib, sender.outbox + after);
    assert [] + WireOf(lib, start, run) == WireOf(lib, start, run);
    RunReadsBack(lib, start, receiver.Receiving(), run, after);
    bodies, ok := receiver.Receives(run);
    rest := receiver.inbox;
  }
}
