// A host that keeps to the block protocol gets the key and the address it asks for.

module HonestAddress {
  import opened Octets
  import opened Numbers
  import opened Screen
  import opened Paths
  import opened Blocks
  import opened Signing
  import opened SignApdu
  import opened Honest
  import Keys
  import Addresses

  // ---------------------------------------------------------------- what an address request comes to

  /** The 32 characters are the digits of the hash to the base 32, written in the alphabet of Bech32; six for the
      checksum follow. */
  ghost predicate SpellsHash(env: Env, text: Bytes, hash: Bytes, digits: seq<nat>) {
    && |text| == 41 && text[..3] == Ascii("pb1") && |digits| == 32
    && Addresses.Positional(32, digits) == BigEndian(hash)
    && (forall k :: 0 <= k < 32 ==>
          digits[k] < 32 && text[3 + k] == Ascii("qpzry9x8gf2tvdw0s3jn54khce6mua7l")[digits[k]])
    && text[35..] == Addresses.Chars(env.checksum(digits))
  }

  /** 76 bytes: the compressed key with its sign, and the address of its hash, each behind its length. */
  ghost predicate CarriesKey(env: Env, reply: Bytes, point: Keys.Point, hash: Bytes) {
    && |reply| == 76 && reply[0] == 33 && reply[1] == 2 + Keys.Y(point) % 2 && reply[2..34] == point[1..33]
    && reply[34] == 41
    && exists digits :: SpellsHash(env, reply[35..], hash, digits)
  }

  /** The key in the form that is hashed and sent. */
  function KeyText(point: Keys.Point): Bytes {
    [2 + Keys.Y(point) % 2] + point[1..33]
  }

  ghost predicate AddressMeets(env: Env, r: Run, path: seq<nat>, verify: bool) {
    if !PathAllowed(path) || env.point(path).None? || env.pkh(KeyText(env.point(path).value)).None? then
      r == Refused([])
    else
      && r.Replied? && r.path == path
      && CarriesKey(env, r.reply, env.point(path).value, env.pkh(KeyText(env.point(path).value)).value)
      && r.seen == if verify then [Scroll("Provide Public Key", []), Scroll("Address", r.reply[35..]), Final([])]
                   else []
  }

  // ---------------------------------------------------------------- the reply

  lemma {:induction false} CompressedIs(point: Keys.Point)
    ensures Keys.Compressed(point) == KeyText(point)
  {
    ParityOfLast(point[33..]);
  }

  lemma {:induction false} CharIs(d: nat)
    requires d < 32
    ensures Addresses.CharOf(d) == Ascii("qpzry9x8gf2tvdw0s3jn54khce6mua7l")[d]
  {
    var s := "qpzry9x8gf2tvdw0s3jn54khce6mua7l";
    assert |s| == 32;
  }

  lemma {:induction false} TextSpells(env: Env, hash: Addresses.KeyHash)
    ensures SpellsHash(env, Addresses.AddressText(env.checksum, hash), hash, Addresses.Base32(hash))
  {
    var digits := Addresses.Base32(hash);
    Addresses.Base32IsPositional(hash, 32);
    var symbols := digits + env.checksum(digits);
    var text := Addresses.AddressText(env.checksum, hash);
    assert text == Ascii("pb") + Ascii("1") + Addresses.Chars(symbols);
    assert text[..3] == Ascii("pb1");
    forall k | 0 <= k < 32
      ensures digits[k] < 32 && text[3 + k] == Ascii("qpzry9x8gf2tvdw0s3jn54khce6mua7l")[digits[k]]
    {
      CharIs(digits[k]);
      assert symbols[k] == digits[k];
    }
    assert text[35..] == Addresses.Chars(env.checksum(digits));
  }

  lemma {:induction false} ReplyMeets(env: Env, path: seq<nat>, verify: bool, trace: seq<Bytes>, point: Keys.Point,
                                      hash: Addresses.KeyHash)
    requires PathAllowed(path) && env.point(path) == Some(point) && env.pkh(Keys.Compressed(point)) == Some(hash)
    requires Keys.Compressed(point) == KeyText(point)
    ensures AddressMeets(env, Answer(env, path, verify, trace), path, verify)
  {
    var key, text := KeyText(point), Addresses.AddressText(env.checksum, hash);
    TextSpells(env, hash);
    Addresses.ReplyRoundTrip(env.checksum, key, hash);
    var reply := Addresses.Framed(key, text).value;
    assert reply == [33] + key + [41] + text;
    assert reply[35..] == text && reply[2..34] == point[1..33];
    assert SpellsHash(env, reply[35..], hash, Addresses.Base32(hash));
    assert [] + [Scroll("Provide Public Key", [])] + [Scroll("Address", text)] + [Final([])] ==
           [Scroll("Provide Public Key", []), Scroll("Address", text), Final([])];
  }

  lemma {:induction false} AnswerMeets(env: Env, path: seq<nat>, verify: bool, trace: seq<Bytes>)
    requires PathAllowed(path)
    ensures AddressMeets(env, Answer(env, path, verify, trace), path, verify)
  {
    if env.point(path).Some? {
      var point := env.point(path).value;
      CompressedIs(point);
      if env.pkh(KeyText(point)).Some? { ReplyMeets(env, path, verify, trace, point, env.pkh(KeyText(point)).value); }
    }
  }

  // ---------------------------------------------------------------- the conversation

  /** The goal is reached once the path is read. */
  ghost predicate AddressLeads(env: Env, read: PathReading, verify: bool, reach: Reach) {
    if read.Path? && HasPrefix(read.steps) then forall trace :: reach(Answer(env, read.steps, verify, trace), 0)
    else reach(Refused([]), 0)
  }

  lemma {:induction false} AddressReaches(env: Env, setting: nat, req: Request, at: Cursor, trace: seq<Bytes>,
                                          buf: Bytes, u: seq<Bytes>, read: PathReading, host: Host, reach: Reach)
    requires req.AddressRequest? && Inductive(env, setting, req, host, reach)
    requires Has(env.h, host, u) && AddressLeads(env, read, req.verify, reach)
    requires Trace(env.h, at, u) && ParsePath(buf + Read(env.h, at, u)) == read && !read.Incomplete?
    ensures reach(SettleAddress(env, req.verify, at, trace, buf), |u|)
    decreases |u|
  {
    var r := SettleAddress(env, req.verify, at, trace, buf);
    if ParsePath(buf).Incomplete? {
      NothingLeft(env.h, at, u, buf);
      AddressServed(env, setting, req, at, trace, buf, u[0]);
      TakenAll(env.h, at, u, buf);
      AddressReaches(env, setting, req, Past(u[0]), trace + [u[0]], buf + Data(u[0])[at.offset..], u[1..], read, host,
                     reach);
      var next := SettleAddress(env, req.verify, Past(u[0]), trace + [u[0]], buf + Data(u[0])[at.offset..]);
      OnServed(env, setting, req, r, next, u, host, |u[1..]|, reach);
    } else {
      PathStable(buf, buf + Read(env.h, at, u));
      Later(env, setting, req, r, host, 0, |u|, reach);
    }
  }

  ghost predicate AddressChained(h: Hash, path: seq<nat>, size: nat) {
    && size > 0 && ValidPath(path)
    && var v := Chain(h, size, EncodePath(path));
    && ProperHash(h, v) && NoCollision(h, Set(v))
  }

  function AddressRequestFor(h: Hash, path: seq<nat>, size: nat, verify: bool): Request
    requires size > 0 && |path| < 256
  {
    AddressRequest(Head(h, size, EncodePath(path)).head, verify)
  }

  function AddressHost(h: Hash, path: seq<nat>, size: nat): Host
    requires size > 0 && |path| < 256
  {
    Host(Chain(h, size, EncodePath(path)), false)
  }

  ghost function AnswersAs(env: Env, path: seq<nat>, verify: bool): Run -> bool {
    (r: Run) => AddressMeets(env, r, path, verify)
  }

  lemma {:induction false} AddressArrives(h: Hash, path: seq<nat>, size: nat)
    requires AddressChained(h, path, size)
    ensures var v, c := Chain(h, size, EncodePath(path)), Head(h, size, EncodePath(path));
            && Trace(h, c, v) && ParsePath([] + Read(h, c, v)) == ReadingOf(path)
            && Has(h, AddressHost(h, path, size), v)
  {
    ChainReadsBack(h, size, EncodePath(path));
    HasAll(h, AddressHost(h, path, size), Chain(h, size, EncodePath(path)));
    PathRoundTrip(path, []);
    assert EncodePath(path) + [] == EncodePath(path) == [] + EncodePath(path);
  }

  lemma {:induction false} AddressReady(env: Env, step: Machine, answer: Answerer, path: seq<nat>, verify: bool)
    ensures AddressLeads(env, ReadingOf(path), verify, EndsAs(step, answer, AnswersAs(env, path, verify)))
  {
    var reach := EndsAs(step, answer, AnswersAs(env, path, verify));
    PathDecides(path);
    if PathAllowed(path) {
      forall trace ensures reach(Answer(env, path, verify, trace), 0) { AnswerMeets(env, path, verify, trace); }
    }
  }

  /** Every address request to such a host comes to its end within the blocks of the path: with the key and the address
      of an allowed path that has a key, shown exactly if that was asked for, and refused without a screen otherwise. */
  lemma {:induction false} ConversationAnswers(env: Env, setting: nat, path: seq<nat>, size: nat, verify: bool, n: nat)
    requires AddressChained(env.h, path, size) && n >= |Chain(env.h, size, EncodePath(path))|
    ensures var req, host := AddressRequestFor(env.h, path, size, verify), AddressHost(env.h, path, size);
            var r := Converse(MachineOf(env, setting, req), AnswererOf(env.h, host), Start(env, setting, req), n);
            !r.Waiting? && AddressMeets(env, r, path, verify)
  {
    var req, host := AddressRequestFor(env.h, path, size, verify), AddressHost(env.h, path, size);
    var v := Chain(env.h, size, EncodePath(path));
    var step, answer, good := MachineOf(env, setting, req), AnswererOf(env.h, host), AnswersAs(env, path, verify);
    var reach := EndsAs(step, answer, good);
    EndsInductive(step, answer, good);
    AddressArrives(env.h, path, size);
    AddressReady(env, step, answer, path, verify);
    AddressReaches(env, setting, req, Cursor(req.path, 0), [], [], v, ReadingOf(path), host, reach);
    ConverseMore(step, answer, Start(env, setting, req), |v|, n);
  }

  /** The same, told by the replies of the host. */
  lemma {:induction false} HonestHostGetsAddress(env: Env, setting: nat, path: seq<nat>, size: nat, verify: bool,
                                                 n: nat)
    requires AddressChained(env.h, path, size) && n >= |Chain(env.h, size, EncodePath(path))|
    ensures var req := AddressRequestFor(env.h, path, size, verify);
            var replies := Replies(env, setting, req, AddressHost(env.h, path, size), n);
            AddressMeets(env, Fold(env, setting, req, replies), path, verify)
  {
    var req, host := AddressRequestFor(env.h, path, size, verify), AddressHost(env.h, path, size);
    ConversationAnswers(env, setting, path, size, verify, n);
    FoldOfDialogue(env, setting, req, host, n);
  }
}
