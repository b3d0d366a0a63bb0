/** The encrypted settings file (src/cryptosettings.cpp): header and framing,
    and the counter that supplies the nonce. The AEAD of section 2.8 of RFC 8439
    is a parameter. char is signed, integers are little-endian. */
module CryptoSettings {
  import opened Common
  import opened Bits

  type Bytes = seq<Byte>

  const NONCE_SIZE := 12
  const MAC_SIZE := 16
  const KEY_SIZE := 32
  const HEADER_SIZE := 4
  const V1: Byte := 1
  const V2: Byte := 2
  const NONCE_MAX := 0xFFFF_FFFF_FFFF_FFFF

  // ------------------------------------------------------------------
  // Format
  // ------------------------------------------------------------------

  /** The n low bytes of x, least significant first. */
  function LittleEndian(x: nat, n: nat): (b: Bytes)
    ensures |b| == n
  {
    if n == 0 then [] else [x % 0x100] + LittleEndian(x / 0x100, n - 1)
  }

  function FromLittleEndian(b: Bytes): nat {
    if b == [] then 0 else (b[0] as int) + 0x100 * FromLittleEndian(b[1..])
  }

  function Pow256(n: nat): nat {
    if n == 0 then 1 else 0x100 * Pow256(n - 1)
  }

  lemma {:induction false} LittleEndianRoundTrip(x: nat, n: nat)
    requires x < Pow256(n)
    ensures FromLittleEndian(LittleEndian(x, n)) == x
  {
    if n > 0 {
      LittleEndianRoundTrip(x / 0x100, n - 1);
      assert LittleEndian(x, n)[1..] == LittleEndian(x / 0x100, n - 1);
    }
  }

  /** A 64-bit counter in the first eight of twelve bytes. */
  function NonceBytes(n: nat): (b: Bytes)
    ensures |b| == NONCE_SIZE
  {
    LittleEndian(n, 8) + [0, 0, 0, 0]
  }

  function NonceOf(b: Bytes): nat
    requires |b| == NONCE_SIZE
  {
    FromLittleEndian(b[..8])
  }

  lemma NonceRoundTrip(n: nat)
    requires n <= NONCE_MAX
    ensures NonceOf(NonceBytes(n)) == n
  {
    assert NonceBytes(n)[..8] == LittleEndian(n, 8);
    assert Pow256(4) == 0x1_0000_0000;
    assert Pow256(8) == NONCE_MAX + 1;
    LittleEndianRoundTrip(n, 8);
  }

  function Header(version: Byte, metadata: Bytes): Bytes {
    if version == V2
    then [V2, 0, |metadata| % 0x100, |metadata| / 0x100 % 0x100] + metadata
    else [version]
  }

  datatype Parts = Parts(header: Bytes, metadata: Bytes, nonce: Bytes, mac: Bytes, ciphertext: Bytes)

  function FileOf(p: Parts): Bytes {
    p.header + p.nonce + p.mac + p.ciphertext
  }

  function SignedChar(b: Byte): int {
    if b < 0x80 then b else b - 0x100
  }

  /** quint16 metaLength = header[2] + (header[3] >> 8), with signed chars: the
      shift leaves 0 or -1. */
  function DecodedLength(lo: Byte, hi: Byte): Word16 {
    (SignedChar(lo) + (if SignedChar(hi) < 0 then -1 else 0)) % 0x1_0000
  }

  /** device.read(n) and what is left */
  function Read(device: Bytes, n: nat): (r: (Bytes, Bytes))
    ensures |r.0| <= n && r.0 + r.1 == device
  {
    if |device| <= n then (device, []) else (device[..n], device[n..])
  }

  /** The framing part of readEncryptedChachaPolyFile, version byte included. */
  function ParseFile(file: Bytes): Option<Parts> {
    if file == [] then None
    else
      var (version, device) := (file[0], file[1..]);
      if version == V2 then
        var (fixed, d1) := Read(device, HEADER_SIZE - 1);
        if |fixed| != HEADER_SIZE - 1 then None
        else
          var metaLength := DecodedLength(fixed[1], fixed[2]);
          var (metadata, d2) := Read(d1, metaLength);
          if |metadata| != metaLength then None
          else ParseRest([version] + fixed + metadata, metadata, d2)
      else if version == V1 then ParseRest([version], [], device)
      else None
  }

  function ParseRest(header: Bytes, metadata: Bytes, device: Bytes): Option<Parts> {
    var (nonce, d1) := Read(device, NONCE_SIZE);
    var (mac, ciphertext) := Read(d1, MAC_SIZE);
    if |nonce| != NONCE_SIZE || |mac| != MAC_SIZE || ciphertext == [] then None
    else Some(Parts(header, metadata, nonce, mac, ciphertext))
  }

  /** What writeEncryptedChachaPolyFile produces. */
  ghost predicate Written(version: Byte, p: Parts) {
    && (version == V1 || version == V2)
    && (version == V1 ==> p.metadata == []) && |p.metadata| <= 0xFFFF
    && p.header == Header(version, p.metadata)
    && |p.nonce| == NONCE_SIZE && |p.mac| == MAC_SIZE && p.ciphertext != []
  }

  // ------------------------------------------------------------------
  // Round trip of the framing
  // ------------------------------------------------------------------

  lemma RestUndone(header: Bytes, metadata: Bytes, p: Parts)
    requires |p.nonce| == NONCE_SIZE && |p.mac| == MAC_SIZE && p.ciphertext != []
    ensures ParseRest(header, metadata, p.nonce + p.mac + p.ciphertext)
         == Some(Parts(header, metadata, p.nonce, p.mac, p.ciphertext))
  {
    var d := p.nonce + p.mac + p.ciphertext;
    assert d[..NONCE_SIZE] == p.nonce && d[NONCE_SIZE..] == p.mac + p.ciphertext;
    assert (p.mac + p.ciphertext)[..MAC_SIZE] == p.mac;
    assert (p.mac + p.ciphertext)[MAC_SIZE..] == p.ciphertext;
  }

  /** The length decodes correctly up to 127 and never above. */
  lemma LengthDecodes(n: nat)
    requires n <= 0xFFFF
    ensures DecodedLength(n % 0x100, n / 0x100 % 0x100) == n <==> n <= 127
  {
    var lo, hi := n % 0x100, n / 0x100 % 0x100;
    assert n == 0x100 * hi + lo;
    if hi >= 0x80 && lo >= 0x80 {
      assert DecodedLength(lo, hi) == 0x1_0000 + lo - 0x101;
    } else if hi >= 0x80 && lo == 0 {
      assert DecodedLength(lo, hi) == 0xFFFF;
    } else if lo >= 0x80 {
      assert DecodedLength(lo, hi) == 0x1_0000 + lo - 0x100;
    }
  }

  lemma ParseV2(fixed: Bytes, rest: Bytes)
    requires |fixed| == HEADER_SIZE - 1
    ensures ParseFile([V2] + fixed + rest) ==
      (var metaLength := DecodedLength(fixed[1], fixed[2]);
       if |rest| < metaLength then None
       else ParseRest([V2] + fixed + rest[..metaLength], rest[..metaLength], rest[metaLength..]))
  {
    var file := [V2] + fixed + rest;
    assert file[1..] == fixed + rest;
    assert (fixed + rest)[..3] == fixed && (fixed + rest)[3..] == rest;
    assert |rest| <= DecodedLength(fixed[1], fixed[2]) ==> rest[..|rest|] == rest && rest[|rest|..] == [];
  }

  /** A written file parses back to its parts exactly when its metadata has at
      most 127 bytes: line 159 loses the sign and the high byte. */
  lemma FileRoundTrip(version: Byte, p: Parts)
    requires Written(version, p)
    ensures ParseFile(FileOf(p)) == Some(p) <==> |p.metadata| <= 127
  {
    hide ParseRest, ParseFile, DecodedLength;
    var tail := p.nonce + p.mac + p.ciphertext;
    assert FileOf(p) == p.header + tail;
    RestUndone(p.header, p.metadata, p);
    if version == V1 {
      ParseV1(tail);
    } else {
      var n := |p.metadata|;
      var fixed := [0, n % 0x100, n / 0x100 % 0x100];
      var rest := p.metadata + tail;
      assert FileOf(p) == [V2] + fixed + rest;
      ParseV2(fixed, rest);
      LengthDecodes(n);
      if n <= 127 {
        assert rest[..n] == p.metadata && rest[n..] == tail;
        assert [V2] + fixed + p.metadata == p.header;
      } else {
        var m := DecodedLength(fixed[1], fixed[2]);
        if m <= |rest| {
          RestHeader([V2] + fixed + rest[..m], rest[..m], rest[m..]);
        }
      }
    }
  }

  lemma ParseV1(device: Bytes)
    ensures ParseFile([V1] + device) == ParseRest([V1], [], device)
  {
    assert ([V1] + device)[1..] == device;
  }

  /** The layout of an encrypted file: the version; for version 2 a zero byte, the
      metadata length, low byte first, and the metadata; then 12 bytes of nonce,
      16 of MAC, and the ciphertext. */
  lemma FileLayout(version: Byte, p: Parts)
    requires Written(version, p)
    ensures var f, m := FileOf(p), if version == 2 then 4 + |p.metadata| else 1;
      && |f| == m + 28 + |p.ciphertext| && f[0] == version
      && (version == 2 ==> f[1] == 0 && 0x100 * (f[3] as int) + (f[2] as int) == |p.metadata| && f[4..m] == p.metadata)
      && f[m..m + 12] == p.nonce && f[m + 12..m + 28] == p.mac && f[m + 28..] == p.ciphertext
  {
    var n := |p.metadata|;
    assert n == 0x100 * (n / 0x100) + n % 0x100;
    var h := p.header;
    assert version == 2 ==> h[4..] == p.metadata;
    assert FileOf(p)[..|h|] == h;
  }

  lemma RestHeader(header: Bytes, metadata: Bytes, device: Bytes)
    ensures var r := ParseRest(header, metadata, device);
      r.Some? ==> r.value.metadata == metadata && r.value.header == header
  {
  }

  // ------------------------------------------------------------------
  // Contents, with the cipher as a parameter
  // ------------------------------------------------------------------

  /** key, nonce, header (authenticated), text; encryption yields text and MAC. */
  datatype Aead = Aead(
    encrypt: (Bytes, Bytes, Bytes, Bytes) -> (Bytes, Bytes),
    decrypt: (Bytes, Bytes, Bytes, Bytes, Bytes) -> Option<Bytes>)

  /** A file is read only with a key of 32 bytes, and only if it holds an object. */
  lemma ReadNeeds(a: Aead, isObject: Bytes -> bool, key: Bytes, file: Bytes)
    ensures ReadFile(a, isObject, key, file).Some? ==>
      |key| == 32 && isObject(ReadFile(a, isObject, key, file).value.0)
  {
    hide ParseFile;
  }

  /** The headers that the writer makes. */
  ghost predicate WriterHeader(header: Bytes) {
    exists version, metadata: Bytes ::
      |metadata| <= 0xFFFF && header == Header(version, metadata)
  }

  /** What was encrypted under a writer's header decrypts under it. */
  ghost predicate Lawful(a: Aead) {
    forall key, nonce, header, text :: WriterHeader(header) ==>
      var (ciphertext, mac) := a.encrypt(key, nonce, header, text);
      && |ciphertext| == |text| && |mac| == MAC_SIZE
      && a.decrypt(key, nonce, header, ciphertext, mac) == Some(text)
  }

  function WriteFile(a: Aead, key: Bytes, n: nat, version: Byte, metadata: Bytes, content: Bytes): Bytes {
    var header := Header(version, metadata);
    var (ciphertext, mac) := a.encrypt(key, NonceBytes(n), header, content);
    FileOf(Parts(header, metadata, NonceBytes(n), mac, ciphertext))
  }

  /** The settings read, and the nonce counter to continue from. Whether a text
      is a JSON object is a parameter. */
  function ReadFile(a: Aead, isObject: Bytes -> bool, key: Bytes, file: Bytes): Option<(Bytes, nat)> {
    match ParseFile(file)
    case None => None
    case Some(p) =>
      if |key| != KEY_SIZE then None
      else match a.decrypt(key, p.nonce, p.header, p.ciphertext, p.mac)
        case None => None
        case Some(content) =>
          if isObject(content) && |p.nonce| == NONCE_SIZE then Some((content, NonceOf(p.nonce))) else None
  }

  /** Reading back a file restores the settings and the counter. */
  lemma ReadAfterWrite(a: Aead, isObject: Bytes -> bool, key: Bytes, n: nat, version: Byte,
                       metadata: Bytes, content: Bytes)
    requires Lawful(a) && n <= NONCE_MAX && |key| == KEY_SIZE && content != [] && isObject(content)
    requires version == V2 || (version == V1 && metadata == [])
    requires |metadata| <= 127
    ensures ReadFile(a, isObject, key, WriteFile(a, key, n, version, metadata, content)) == Some((content, n))
  {
    hide ParseFile, NonceBytes, NonceOf;
    var header := Header(version, metadata);
    assert WriterHeader(header);
    var (ciphertext, mac) := a.encrypt(key, NonceBytes(n), header, content);
    FileRoundTrip(version, Parts(header, metadata, NonceBytes(n), mac, ciphertext));
    NonceRoundTrip(n);
  }

  /** The writer alone uses the key, so what decrypts under it has a header that
      the writer makes; anything else would be a forgery. */
  ghost predicate Authentic(a: Aead, key: Bytes) {
    forall nonce, header, ciphertext, mac ::
      a.decrypt(key, nonce, header, ciphertext, mac).Some? ==> WriterHeader(header)
  }

  /** Some cipher obeys both laws. */
  lemma LawsAgree(key: Bytes)
    ensures exists a: Aead :: Lawful(a) && Authentic(a, key)
  {
    var mac: Bytes := seq(MAC_SIZE, _ => 0);
    var a := Aead((k, n, h, text) => (text, mac), (k, n, h, text, m) => if WriterHeader(h) then Some(text) else None);
    assert Lawful(a) && Authentic(a, key);
  }

  /** Every writer's header has metadata as long as it says. */
  lemma WriterLength(version: Byte, metadata: Bytes)
    requires |metadata| <= 0xFFFF
    ensures var h := Header(version, metadata);
      h != [] && (h[0] == V2 ==> |h| >= 4 && |h| == 4 + 0x100 * (h[3] as int) + (h[2] as int))
  {
    assert |metadata| == 0x100 * (|metadata| / 0x100) + |metadata| % 0x100;
  }

  lemma WrongLengthHeader(lo: Byte, hi: Byte, metadata: Bytes)
    requires |metadata| != 0x100 * hi + lo
    ensures !WriterHeader([V2, 0, lo, hi] + metadata)
  {
    hide Header;
    forall version: Byte, m: Bytes | |m| <= 0xFFFF
      ensures Header(version, m) != [V2, 0, lo, hi] + metadata
    {
      WriterLength(version, m);
    }
  }

  /** A file reads back to its contents and nonce if its metadata has at most
      127 bytes, and not at all otherwise. */
  lemma ReadIff(a: Aead, isObject: Bytes -> bool, key: Bytes, n: nat, version: Byte,
                metadata: Bytes, content: Bytes)
    requires Lawful(a) && Authentic(a, key)
    requires n <= NONCE_MAX && |key| == KEY_SIZE && content != [] && isObject(content)
    requires |metadata| <= 0xFFFF && (version == V2 || (version == V1 && metadata == []))
    ensures ReadFile(a, isObject, key, WriteFile(a, key, n, version, metadata, content))
         == if |metadata| <= 127 then Some((content, n)) else None
  {
    hide ReadFile, WriteFile;
    if |metadata| <= 127 {
      ReadAfterWrite(a, isObject, key, n, version, metadata, content);
    } else {
      LongMetadataUnread(a, isObject, key, n, metadata, content);
    }
  }

  lemma LongMetadataUnread(a: Aead, isObject: Bytes -> bool, key: Bytes, n: nat, metadata: Bytes, content: Bytes)
    requires Authentic(a, key) && 127 < |metadata| <= 0xFFFF
    ensures ReadFile(a, isObject, key, WriteFile(a, key, n, V2, metadata, content)).None?
  {
    hide ParseFile, ParseRest, NonceBytes, NonceOf, DecodedLength, WriterHeader;
    var (ciphertext, mac) := a.encrypt(key, NonceBytes(n), Header(V2, metadata), content);
    var len := |metadata|;
    var lo, hi := len % 0x100, len / 0x100 % 0x100;
    var fixed, rest := [0, lo, hi], metadata + NonceBytes(n) + mac + ciphertext;
    var file := WriteFile(a, key, n, V2, metadata, content);
    assert file == [V2] + fixed + rest;
    ParseV2(fixed, rest);
    LengthDecodes(len);
    var m := DecodedLength(lo, hi);
    assert len == 0x100 * hi + lo;
    if m <= |rest| {
      var header := [V2] + fixed + rest[..m];
      assert header == [V2, 0, lo, hi] + rest[..m];
      WrongLengthHeader(lo, hi, rest[..m]);
      RestHeader(header, rest[..m], rest[m..]);
    }
  }

  // ------------------------------------------------------------------
  // Nonces over runs
  // ------------------------------------------------------------------

  /** A key epoch and a nonce under it. */
  type Pair = (nat, nat)

  /** epoch counts changes of the key. written lists the pairs of the encrypted
      files completed, the last of which is on disk with `metadata` bytes of
      metadata unless a plain-text file has replaced it; sealed lists the pairs of
      all encryptions. */
  datatype Store = Store(
    epoch: nat, lastNonce: nat, written: seq<Pair>, metadata: nat, plain: bool, sealed: seq<Pair>)

  /** An encrypted write, with whether the key can be read and the device takes
      the file; a plain-text write; reading the file again; and a restart of the
      program, which reads the file once before it writes. If that fails the key
      store may hand out another key from then on. */
  datatype Event =
    | Write(key: bool, metadata: nat, stored: bool)
    | WritePlain
    | ReadBack(key: bool)
    | Restart(key: bool, rekeyed: bool)

  const FRESH := Store(0, 0, [], 0, false, [])

  function Increment(s: Store): Store {
    var n := (s.lastNonce + 1) % (NONCE_MAX + 1);
    if n == NONCE_MAX then s.(epoch := s.epoch + 1, lastNonce := 0) else s.(lastNonce := n)
  }

  /** The counter goes up by one; where it would reach its greatest value the key
      is reset and it starts again from 0. */
  lemma CounterSteps(s: Store)
    requires s.lastNonce < 0xFFFF_FFFF_FFFF_FFFF
    ensures var d := Increment(s);
      if s.lastNonce < 0xFFFF_FFFF_FFFF_FFFE then d.epoch == s.epoch && d.lastNonce == s.lastNonce + 1
      else d.epoch == s.epoch + 1 && d.lastNonce == 0
  {
  }

  /** The write gets as far as the encryption. */
  predicate Seals(e: Event) {
    e.Write? && e.key && e.metadata <= 0xFFFF
  }

  /** The write completes. */
  predicate Completes(e: Event) {
    Seals(e) && e.stored
  }

  /** A failed write leaves the old file in place. */
  function DoWrite(s: Store, e: Event): Store
    requires e.Write?
  {
    var s1 := Increment(s);
    var s2 := if Seals(e) then s1.(sealed := s1.sealed + [(s1.epoch, s1.lastNonce)]) else s1;
    if Completes(e)
    then s2.(written := s2.written + [(s2.epoch, s2.lastNonce)], metadata := e.metadata, plain := false)
    else s2
  }

  /** Reading restores the counter: there is an encrypted file, of the current
      key, with metadata that decodes; see ReadIff. */
  predicate Reads(s: Store, key: bool) {
    key && !s.plain && s.written != [] && s.written[|s.written| - 1].0 == s.epoch && s.metadata <= 127
  }

  function DoRead(s: Store, key: bool): Store {
    if Reads(s, key) then s.(lastNonce := s.written[|s.written| - 1].1) else s
  }

  function Step(s: Store, e: Event): Store {
    match e
    case Write(_, _, _) => DoWrite(s, e)
    case WritePlain => s.(plain := true)
    case ReadBack(key) => DoRead(s, key)
    case Restart(key, rekeyed) =>
      if !Reads(s, key) && rekeyed then s.(epoch := s.epoch + 1, lastNonce := 0)
      else DoRead(s.(lastNonce := 0), key)
  }

  function Run(s: Store, events: seq<Event>): Store
    decreases |events|
  {
    if events == [] then s else Run(Step(s, events[0]), events[1..])
  }

  predicate Before(a: Pair, b: Pair) {
    a.0 < b.0 || (a.0 == b.0 && a.1 < b.1)
  }

  ghost predicate Increasing(ps: seq<Pair>) {
    forall i, j :: 0 <= i < j < |ps| ==> Before(ps[i], ps[j])
  }

  /** The counter is not behind the last of ps. */
  predicate Covers(s: Store, ps: seq<Pair>) {
    ps == [] || !Before((s.epoch, s.lastNonce), ps[|ps| - 1])
  }

  /** Nonces stay below the largest 64-bit number and epochs below the current. */
  ghost predicate InRange(s: Store) {
    && s.lastNonce < NONCE_MAX
    && (forall p :: p in s.written || p in s.sealed ==> p.0 <= s.epoch && p.1 < NONCE_MAX)
  }

  lemma StepInRange(s: Store, e: Event)
    requires InRange(s)
    ensures InRange(Step(s, e))
  {
  }

  /** The next pair comes after the last of ps exactly if the counter covers it. */
  lemma NextIsFresh(s: Store, ps: seq<Pair>)
    requires s.lastNonce < NONCE_MAX && Increasing(ps)
    requires forall p :: p in ps ==> p.0 <= s.epoch && p.1 < NONCE_MAX
    ensures var d := Increment(s); Increasing(ps + [(d.epoch, d.lastNonce)]) <==> Covers(s, ps)
    ensures var d := Increment(s); Covers(d, ps + [(d.epoch, d.lastNonce)])
    ensures Covers(s, ps) ==> Covers(Increment(s), ps)
  {
    var d := Increment(s);
    var next := (d.epoch, d.lastNonce);
    var qs := ps + [next];
    if ps != [] {
      var k := |ps| - 1;
      assert ps[k] in ps;
      assert Before(ps[k], next) <==> !Before((s.epoch, s.lastNonce), ps[k]);
      if Before(ps[k], next) {
        forall i, j | 0 <= i < j < |qs| ensures Before(qs[i], qs[j]) {
          assert i < k ==> Before(ps[i], ps[k]);
        }
      } else {
        assert !Before(qs[k], qs[k + 1]);
      }
    }
  }

  /** What the two guarantees, on files and on encryptions, have in common. */
  datatype Kind = Files | Encryptions

  function Pairs(s: Store, kind: Kind): seq<Pair> {
    if kind.Files? then s.written else s.sealed
  }

  /** The event uses a new pair of this kind. */
  predicate Uses(e: Event, kind: Kind) {
    if kind.Files? then Completes(e) else Seals(e)
  }

  ghost predicate Good(s: Store, kind: Kind) {
    InRange(s) && Increasing(Pairs(s, kind)) && Covers(s, Pairs(s, kind))
  }

  /** The event puts the counter behind pairs already used: it reads a file older
      than the last encryption, or it restarts, cannot read the file, keeps its
      key, and has used a later nonce of that key than 0. */
  predicate FallsBehind(s: Store, e: Event, kind: Kind) {
    var ps := Pairs(s, kind);
    if e.Write? || e.WritePlain? || ps == [] || ps[|ps| - 1].0 != s.epoch then false
    else if Reads(s, e.key) then s.written[|s.written| - 1].1 < ps[|ps| - 1].1
    else e.Restart? && !e.rekeyed && ps[|ps| - 1].1 > 0
  }

  /** A read of the latest file never falls behind the files. */
  lemma FilesFallBehind(s: Store, e: Event)
    ensures FallsBehind(s, e, Files) <==>
      e.Restart? && !Reads(s, e.key) && !e.rekeyed && s.written != []
      && s.written[|s.written| - 1].0 == s.epoch && s.written[|s.written| - 1].1 > 0
  {
  }

  /** The exact step: from a good state an event leads to a good one if and only
      if it does not fall behind; and whatever happened, a write uses a fresh
      pair if and only if the counter covers the pairs used. */
  lemma StepGood(s: Store, e: Event, kind: Kind)
    requires Good(s, kind)
    ensures Good(Step(s, e), kind) <==> !FallsBehind(s, e, kind)
    ensures Increasing(Pairs(Step(s, e), kind))
  {
    hide Step, FallsBehind, Good;
    if e.Write? {
      WriteGood(s, e, kind);
    } else {
      ReadGood(s, e, kind);
    }
  }

  /** A write keeps the counter ahead, whatever becomes of it. */
  lemma WriteGood(s: Store, e: Event, kind: Kind)
    requires Good(s, kind) && e.Write?
    ensures Good(Step(s, e), kind) && !FallsBehind(s, e, kind) && Increasing(Pairs(Step(s, e), kind))
  {
    StepInRange(s, e);
    NextIsFresh(s, Pairs(s, kind));
    hide Increasing, Covers, InRange, Increment, Reads;
    if Uses(e, kind) {
    } else {
    }
  }

  /** The other events leave the pairs alone and may set the counter back. */
  lemma ReadGood(s: Store, e: Event, kind: Kind)
    requires Good(s, kind) && !e.Write?
    ensures Good(Step(s, e), kind) <==> !FallsBehind(s, e, kind)
    ensures Increasing(Pairs(Step(s, e), kind))
  {
    StepInRange(s, e);
    hide Increasing, InRange;
    var ps := Pairs(s, kind);
    assert Pairs(Step(s, e), kind) == ps;
    if ps != [] {
      LastInRange(s, kind);
      match e {
        case WritePlain =>
        case ReadBack(key) =>
        case Restart(key, rekeyed) =>
      }
    }
  }

  lemma LastInRange(s: Store, kind: Kind)
    requires InRange(s) && Pairs(s, kind) != []
    ensures Pairs(s, kind)[|Pairs(s, kind)| - 1].0 <= s.epoch
  {
    assert Pairs(s, kind)[|Pairs(s, kind)| - 1] in Pairs(s, kind);
  }

  lemma UseIsFreshIff(s: Store, e: Event, kind: Kind)
    requires InRange(s) && Increasing(Pairs(s, kind)) && Uses(e, kind)
    ensures Increasing(Pairs(Step(s, e), kind)) <==> Covers(s, Pairs(s, kind))
    ensures Covers(Step(s, e), Pairs(Step(s, e), kind))
  {
    NextIsFresh(s, Pairs(s, kind));
  }

  /** No event of the run falls behind. */
  ghost predicate NeverBehind(s: Store, events: seq<Event>, kind: Kind)
    decreases |events|
  {
    events == [] || (!FallsBehind(s, events[0], kind) && NeverBehind(Step(s, events[0]), events[1..], kind))
  }

  /** After k events of the run the pairs increase, in any next write too. */
  ghost predicate FreshAt(s: Store, events: seq<Event>, k: nat, kind: Kind)
    requires k <= |events|
  {
    forall e :: Uses(e, kind) ==> Increasing(Pairs(Step(Run(s, events[..k]), e), kind))
  }

  /** Over every run: (key epoch, nonce) pairs strictly increase, and so never
      repeat, up to every point of the run and in any write added there, if and
      only if no event of the run falls behind. */
  lemma {:induction false} NoncesIncreaseIff(s: Store, events: seq<Event>, kind: Kind)
    requires Good(s, kind)
    ensures NeverBehind(s, events, kind) <==> forall k :: 0 <= k <= |events| ==> FreshAt(s, events, k, kind)
    decreases |events|
  {
    hide Step, Increasing, Covers, FallsBehind, Good;
    GoodParts(s, kind);
    forall e | Uses(e, kind) ensures Increasing(Pairs(Step(s, e), kind)) {
      UseIsFreshIff(s, e, kind);
    }
    assert events[..0] == [];
    assert FreshAt(s, events, 0, kind);
    if events != [] {
      var s1, rest := Step(s, events[0]), events[1..];
      StepGood(s, events[0], kind);
      StepInRange(s, events[0]);
      GoodParts(s1, kind);
      forall k: nat | k <= |rest| ensures FreshAt(s, events, k + 1, kind) == FreshAt(s1, rest, k, kind) {
        assert events[..k + 1][1..] == rest[..k];
      }
      if Good(s1, kind) {
        NoncesIncreaseIff(s1, rest, kind);
        if NeverBehind(s1, rest, kind) {
          forall k | 0 <= k <= |events| ensures FreshAt(s, events, k, kind) {
            if k > 0 {
              assert FreshAt(s1, rest, k - 1, kind);
              assert FreshAt(s, events, (k - 1) + 1, kind);
            }
          }
        } else {
          var k :| 0 <= k <= |rest| && !FreshAt(s1, rest, k, kind);
          assert !FreshAt(s, events, k + 1, kind);
        }
      } else {
        var e := Write(true, 0, true);
        assert Uses(e, kind);
        UseIsFreshIff(s1, e, kind);
        assert rest[..0] == [];
        assert !FreshAt(s1, rest, 0, kind);
        assert !FreshAt(s, events, 0 + 1, kind);
      }
    }
  }

  lemma GoodParts(s: Store, kind: Kind)
    ensures Good(s, kind) <==> InRange(s) && Increasing(Pairs(s, kind)) && Covers(s, Pairs(s, kind))
  {
  }

  /** In particular from a fresh installation. */
  lemma FreshRun(events: seq<Event>, kind: Kind)
    requires NeverBehind(FRESH, events, kind)
    ensures Increasing(Pairs(Run(FRESH, events), kind))
  {
    StaysGood(FRESH, events, kind);
  }

  lemma {:induction false} StaysGood(s: Store, events: seq<Event>, kind: Kind)
    requires Good(s, kind) && NeverBehind(s, events, kind)
    ensures Good(Run(s, events), kind)
    decreases |events|
  {
    hide Step, Good, FallsBehind;
    if events != [] {
      StepGood(s, events[0], kind);
      StaysGood(Step(s, events[0]), events[1..], kind);
    }
  }

  /** The file on disk is the last thing encrypted and can be read. */
  ghost predicate Settled(s: Store) {
    && Good(s, Files) && s.written == s.sealed && s.metadata <= 127 && !s.plain
    && (s.written == [] || s.written[|s.written| - 1].0 == s.epoch)
  }

  predicate Succeeds(e: Event) {
    match e
    case Write(_, metadata, _) => Completes(e) && metadata <= 127
    case WritePlain => false
    case ReadBack(key) => key
    case Restart(key, _) => key
  }

  lemma SuccessfulStep(s: Store, e: Event, kind: Kind)
    requires Settled(s) && Succeeds(e)
    ensures Settled(Step(s, e)) && !FallsBehind(s, e, kind)
  {
    StepGood(s, e, Files);
    hide Good;
  }

  /** A run of completed encrypted writes with metadata that decodes, and of reads
      and restarts that have the key: nothing in it falls behind. */
  lemma {:induction false} SuccessfulRun(s: Store, events: seq<Event>, kind: Kind)
    requires Settled(s) && forall i :: 0 <= i < |events| ==> Succeeds(events[i])
    ensures NeverBehind(s, events, kind) && Increasing(Pairs(Run(s, events), kind))
    decreases |events|
  {
    if events != [] {
      hide Step, Settled, FallsBehind, Increasing;
      SuccessfulStep(s, events[0], kind);
      SuccessfulRun(Step(s, events[0]), events[1..], kind);
    }
  }

  // -- how pairs repeat

  /** Metadata of 128 bytes: the restarted program cannot read the file and, if
      the key store returns the same key, completes a second file under the first
      one's key and nonce. */
  lemma LongMetadataRepeats()
    ensures var w := Write(true, 128, true);
      Run(FRESH, [w, Restart(true, false), w]).written == [(0, 1), (0, 1)]
  {
    var w, start := Write(true, 128, true), Restart(true, false);
    RunThree(FRESH, w, start, w);
    var s1 := Step(FRESH, w);
    assert s1 == Store(0, 1, [(0, 1)], 128, false, [(0, 1)]);
    assert Step(s1, start) == s1.(lastNonce := 0);
  }

  /** A key that cannot be read at start-up and comes back unchanged does the
      same. */
  lemma LostKeyRepeats()
    ensures var w := Write(true, 0, true);
      Run(FRESH, [w, Restart(false, false), w]).written == [(0, 1), (0, 1)]
  {
    var w, start := Write(true, 0, true), Restart(false, false);
    RunThree(FRESH, w, start, w);
    var s1 := Step(FRESH, w);
    assert s1 == Store(0, 1, [(0, 1)], 0, false, [(0, 1)]);
    assert Step(s1, start) == s1.(lastNonce := 0);
  }

  /** So does a plain-text file that replaced the encrypted one before the
      restart. */
  lemma PlainFileRepeats()
    ensures var w := Write(true, 0, true);
      Run(FRESH, [w, WritePlain, Restart(true, false), w]).written == [(0, 1), (0, 1)]
  {
    var w, start := Write(true, 0, true), Restart(true, false);
    var s1 := Step(FRESH, w);
    assert s1 == Store(0, 1, [(0, 1)], 0, false, [(0, 1)]);
    assert [w, WritePlain, start, w][1..] == [WritePlain, start, w];
    RunThree(s1, WritePlain, start, w);
    assert Step(Step(s1, WritePlain), start) == s1.(lastNonce := 0, plain := true);
  }

  /** A write that the device refuses has used its nonce; reading the older file
      makes the next write use it again. */
  lemma FailedWriteRepeats()
    ensures var w, f := Write(true, 0, true), Write(true, 0, false);
      Run(FRESH, [w, f, ReadBack(true), w]).sealed == [(0, 1), (0, 2), (0, 2)]
  {
    var w, f := Write(true, 0, true), Write(true, 0, false);
    var s1 := Step(FRESH, w);
    assert s1 == Store(0, 1, [(0, 1)], 0, false, [(0, 1)]);
    var s2 := Step(s1, f);
    assert s2 == Store(0, 2, [(0, 1)], 0, false, [(0, 1), (0, 2)]);
    var s3 := Step(s2, ReadBack(true));
    assert s3 == s2.(lastNonce := 1);
    assert [w, f, ReadBack(true), w][1..] == [f, ReadBack(true), w];
    RunThree(s1, f, ReadBack(true), w);
  }

  lemma RunThree(s: Store, e0: Event, e1: Event, e2: Event)
    ensures Run(s, [e0, e1, e2]) == Step(Step(Step(s, e0), e1), e2)
  {
    hide Step;
    var s1 := Step(s, e0);
    var s2 := Step(s1, e1);
    var s3 := Step(s2, e2);
    assert [e0, e1, e2][1..] == [e1, e2] && [e1, e2][1..] == [e2] && [e2][1..] == [];
    assert Run(s3, []) == s3;
    assert Run(s2, [e2]) == s3;
    assert Run(s1, [e1, e2]) == s3;
  }

  // ------------------------------------------------------------------
  // The settings object
  // ------------------------------------------------------------------

  class Settings {
    var lastNonce: nat
    ghost var epoch: nat
    ghost var written: seq<Pair>
    ghost var metadataLength: nat
    ghost var plain: bool
    ghost var sealed: seq<Pair>

    ghost function View(): Store
      reads this
    {
      Store(epoch, lastNonce, written, metadataLength, plain, sealed)
    }

    constructor ()
      ensures View() == FRESH
    {
      lastNonce, epoch, written, metadataLength, plain, sealed := 0, 0, [], 0, false, [];
    }

    /** The header, built piece by piece. */
    method MakeHeader(version: Byte, metadata: Bytes) returns (header: Option<Bytes>)
      ensures header.Some? <==> version == V1 || (version == V2 && |metadata| <= 0xFFFF)
      ensures header.Some? ==> header.value == Header(version, if version == V1 then [] else metadata)
    {
      if version == V1 {
        return Some([version]);
      } else if version == V2 {
        if |metadata| > 0xFFFF {
          return None;
        }
        var h := [version];
        h := h + [0];
        h := h + [|metadata| % 0x100];
        h := h + [|metadata| / 0x100 % 0x100];
        return Some(h + metadata);
      } else {
        return None;
      }
    }

    /** The file for the current counter. */
    method Seal(a: Aead, key: Bytes, version: Byte, metadata: Bytes, content: Bytes) returns (file: Option<Bytes>)
      ensures file.Some? <==>
        |key| == KEY_SIZE && (version == V1 || (version == V2 && |metadata| <= 0xFFFF))
      ensures file.Some? ==>
        file.value == WriteFile(a, key, lastNonce, version, if version == V1 then [] else metadata, content)
    {
      hide NonceBytes, Header;
      var nonce := NonceBytes(lastNonce);
      if |key| != KEY_SIZE {
        return None;
      }
      var header := MakeHeader(version, metadata);
      if header.None? {
        return None;
      }
      var (ciphertext, mac) := a.encrypt(key, nonce, header.value, content);
      var device := header.value;
      device := device + nonce;
      device := device + mac;
      device := device + ciphertext;
      return Some(device);
    }

    method NextNonce()
      modifies this`lastNonce, this`epoch
      ensures View() == Increment(old(View()))
    {
      lastNonce := (lastNonce + 1) % (NONCE_MAX + 1);
      if lastNonce == NONCE_MAX {
        epoch := epoch + 1;
        lastNonce := 0;
      }
    }

    /** writeEncryptedChachaPolyFile: the counter moves even if the write fails
        later, and the content is sealed under a fresh pair if and only if the
        counter covers the pairs used. `stored` says whether the device takes the
        whole file. */
    method WriteEncrypted(a: Aead, key: Bytes, version: Byte, metadata: Bytes, content: Bytes, stored: bool)
        returns (file: Option<Bytes>)
      modifies this
      ensures var e := WriteEvent(key, version, metadata, stored);
        && View() == Step(old(View()), e)
        && (file.Some? <==> Completes(e))
        && (InRange(old(View())) && Seals(e) && Increasing(old(sealed)) ==>
            (Increasing(sealed) <==> Covers(old(View()), old(sealed))))
      ensures file.Some? ==>
        file.value == WriteFile(a, key, lastNonce, version, if version == V1 then [] else metadata, content)
    {
      hide Increasing, Covers, InRange, WriteFile, Increment;
      ghost var e := WriteEvent(key, version, metadata, stored);
      if InRange(View()) && Seals(e) && Increasing(sealed) {
        UseIsFreshIff(View(), e, Encryptions);
      }
      NextNonce();
      file := Seal(a, key, version, metadata, content);
      if file.None? {
        return;
      }
      sealed := sealed + [(epoch, lastNonce)];
      if !stored {
        return None;
      }
      written, metadataLength, plain := written + [(epoch, lastNonce)], e.metadata, false;
    }

    /** A write as the runs see it. */
    ghost function WriteEvent(key: Bytes, version: Byte, metadata: Bytes, stored: bool): (e: Event)
      ensures e.Write?
    {
      Write(|key| == KEY_SIZE && (version == V1 || version == V2), if version == V1 then 0 else |metadata|, stored)
    }

    /** readEncryptedChachaPolyFile: consumes the device piece by piece; the
        counter moves only when everything else succeeded. */
    method ReadEncrypted(a: Aead, isObject: Bytes -> bool, key: Bytes, version: Byte, rest: Bytes)
        returns (content: Option<Bytes>)
      modifies this`lastNonce
      ensures var r := ReadFile(a, isObject, key, [version] + rest);
        && content == (if r.Some? then Some(r.value.0) else None)
        && lastNonce == (if r.Some? then r.value.1 else old(lastNonce))
    {
      hide NonceOf, DecodedLength;
      assert ([version] + rest)[1..] == rest;
      var header, metadata, device: Bytes := [version], [], rest;
      if version == V2 {
        var (fixed, d1) := Read(device, HEADER_SIZE - 1);
        header, device := header + fixed, d1;
        if |header| != HEADER_SIZE {
          return None;
        }
        var metaLength := DecodedLength(header[2], header[3]);
        var (more, d2) := Read(device, metaLength);
        header, device := header + more, d2;
        if |header| != metaLength + HEADER_SIZE {
          return None;
        }
        metadata := header[HEADER_SIZE..];
        assert metadata == more;
      } else if version != V1 {
        return None;
      }
      assert ParseFile([version] + rest) == ParseRest(header, metadata, device);
      var (nonce, d3) := Read(device, NONCE_SIZE);
      if |nonce| != NONCE_SIZE {
        return None;
      }
      var (mac, ciphertext) := Read(d3, MAC_SIZE);
      if |mac| != MAC_SIZE || ciphertext == [] || |key| != KEY_SIZE {
        return None;
      }
      var text := a.decrypt(key, nonce, header, ciphertext, mac);
      if text.None? || !isObject(text.value) {
        return None;
      }
      lastNonce := NonceOf(nonce);
      return text;
    }
  }
}
