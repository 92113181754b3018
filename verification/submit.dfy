// The Go engine's onFound: one handler per worker, all sharing the cached
// challenge and difficulty and the map of nonces already submitted. Each load,
// store and critical section is one step; handlers interleave in any order.
module Submit {
  import opened Words
  import opened Bytes
  import opened Hex
  import opened Mining
  import Fips202

  type Bytes32 = s: seq<byte> | |s| == 32 witness ZERO32

  const ZERO32: seq<byte> := [0, 0, 0, 0, 0, 0, 0, 0, 0, 0, 0, 0, 0, 0, 0, 0, 0, 0, 0, 0, 0, 0, 0, 0, 0, 0, 0, 0, 0, 0, 0, 0]

  // `hex` is the checksummed spelling of the address: its digits in some mixture of cases.
  datatype Account = Account(address: seq<byte>, hex: string)
  {
    predicate Valid() { |address| == 20 && Lower(hex) == ToHex(address) }
  }

  // What verifyLocal was given when it passed.
  datatype Proof = Proof(challenge: Bytes32, difficulty: int)

  // A recorded SubmitMine call.
  datatype Call = Call(account: Account, text: string, nonce: seq<byte>, proof: Option<Proof>)

  datatype Handler =
    | Waiting                                                // for the next event
    | Verifying(text: string, nonce: seq<byte>)              // about to load the challenge
    | Comparing(text: string, nonce: seq<byte>, challenge: Bytes32)   // about to load the difficulty
    | Claiming(text: string, nonce: seq<byte>, proof: Option<Proof>)    // about to enter the critical section
    | Calling(text: string, nonce: seq<byte>, proof: Option<Proof>)     // about to call SubmitMine

  // `calls`, `challenges` and `difficulties` are history: the calls made and
  // every value ever cached.
  datatype State = State(
    accounts: seq<Account>, verify: bool,
    challenge: Option<Bytes32>, difficulty: Option<int>,
    submitted: map<string, nat>, handlers: seq<Handler>,
    calls: seq<Call>, challenges: seq<Bytes32>, difficulties: seq<int>)

  datatype Action =
    | Found(i: nat, text: string)
    | Step(i: nat, now: nat)
    | StoreDifficulty(difficulty: int)
    | StoreChallenge(challenge: Bytes32)

  function Init(accounts: seq<Account>, verify: bool): State
  {
    State(accounts, verify, None, None, map[], seq(|accounts|, _ => Waiting), [], [], [])
  }

  // strings.ToLower(address) + ":" + nonce
  function Key(account: Account, text: string): string { Lower(account.hex) + ":" + text }

  // getDifficulty: zero while nothing is cached.
  function Cached(difficulty: Option<int>): int { match difficulty case Some(d) => d case None => 0 }

  // verifyLocal: both halves copied into one buffer, hashed, compared.
  method VerifyLocal(challenge: Bytes32, nonce: Bytes32, difficulty: int) returns (ok: bool)
    ensures ok <==> (Value(Fips202.Keccak256(challenge + nonce)) as int) < difficulty
  {
    hide Fips202.Keccak256, Value;
    var buf := new byte[64](_ => 0);
    for k := 0 to 32
      invariant buf[..k] == challenge[..k]
    {
      buf[k] := challenge[k];
    }
    for k := 0 to 32
      invariant buf[..32] == challenge && buf[32..32 + k] == nonce[..k]
    {
      buf[32 + k] := nonce[k];
    }
    assert buf[..] == buf[..32] + buf[32..64] == challenge + nonce;
    ok := (Value(Fips202.Keccak256(buf[..])) as int) < difficulty;
  }

  predicate Enabled(s: State, a: Action)
  {
    |s.handlers| == |s.accounts| &&
    match a
    case Found(i, _) => i < |s.handlers| && s.handlers[i].Waiting?
    case Step(i, _) => i < |s.handlers| && !s.handlers[i].Waiting?
    case _ => true
  }

  function StartFound(verify: bool, text: string): Handler
  {
    match GoNonce(text)
    case None => Waiting
    case Some(nonce) => if verify then Verifying(text, nonce) else Claiming(text, nonce, None)
  }

  function Apply(s: State, a: Action): State
    requires Enabled(s, a)
  {
    match a
    case Found(i, text) => s.(handlers := s.handlers[i := StartFound(s.verify, text)])
    case StoreDifficulty(d) => s.(difficulty := Some(d), difficulties := s.difficulties + [d])
    case StoreChallenge(ch) => s.(challenge := Some(ch), challenges := s.challenges + [ch])
    case Step(i, now) =>
      match s.handlers[i]
      case Waiting => s
      case Verifying(text, nonce) =>
        var h := match s.challenge case None => Waiting case Some(ch) => Comparing(text, nonce, ch);
        s.(handlers := s.handlers[i := h])
      case Comparing(text, nonce, ch) =>
        var d := Cached(s.difficulty);
        s.(handlers := s.handlers[i := if GoVerify(ch, nonce, d) then Claiming(text, nonce, Some(Proof(ch, d))) else Waiting])
      case Claiming(text, nonce, proof) =>
        var key := Key(s.accounts[i], text);
        if key in s.submitted then s.(handlers := s.handlers[i := Waiting])
        else s.(submitted := s.submitted[key := now], handlers := s.handlers[i := Calling(text, nonce, proof)])
      case Calling(text, nonce, proof) =>
        s.(handlers := s.handlers[i := Waiting], calls := s.calls + [Call(s.accounts[i], text, nonce, proof)])
  }

  predicate Schedule(s: State, acts: seq<Action>)
    decreases |acts|
  {
    acts == [] || (Enabled(s, acts[0]) && Schedule(Apply(s, acts[0]), acts[1..]))
  }

  function After(s: State, acts: seq<Action>): State
    requires Schedule(s, acts)
    decreases |acts|
  {
    if acts == [] then s else After(Apply(s, acts[0]), acts[1..])
  }

  /* The invariant */

  function CallKey(c: Call): string { Key(c.account, c.text) }

  // A claim gives its holder the only right to call under that key.
  predicate KeysInv(s: State)
    requires |s.handlers| == |s.accounts|
  {
    && (forall j :: 0 <= j < |s.calls| ==> CallKey(s.calls[j]) in s.submitted)
    && (forall j, k :: 0 <= j < k < |s.calls| ==> CallKey(s.calls[j]) != CallKey(s.calls[k]))
    && (forall i :: 0 <= i < |s.handlers| && s.handlers[i].Calling? ==> Key(s.accounts[i], s.handlers[i].text) in s.submitted)
    && (forall i, j :: 0 <= i < |s.handlers| && s.handlers[i].Calling? && 0 <= j < |s.calls| ==>
          Key(s.accounts[i], s.handlers[i].text) != CallKey(s.calls[j]))
    && (forall i, k :: 0 <= i < k < |s.handlers| && s.handlers[i].Calling? && s.handlers[k].Calling? ==>
          Key(s.accounts[i], s.handlers[i].text) != Key(s.accounts[k], s.handlers[k].text))
  }

  // A nonce passed verification against values that were in the cache.
  predicate Passed(verify: bool, challenges: seq<Bytes32>, difficulties: seq<int>, nonce: seq<byte>, proof: Option<Proof>)
  {
    verify ==>
      proof.Some? && GoVerify(proof.value.challenge, nonce, proof.value.difficulty) &&
      proof.value.challenge in challenges && proof.value.difficulty in difficulties
  }

  predicate HandlerOk(verify: bool, challenges: seq<Bytes32>, difficulties: seq<int>, h: Handler)
  {
    match h
    case Waiting => true
    case Verifying(text, nonce) => GoNonce(text) == Some(nonce)
    case Comparing(text, nonce, ch) => GoNonce(text) == Some(nonce) && ch in challenges
    case Claiming(text, nonce, proof) => GoNonce(text) == Some(nonce) && Passed(verify, challenges, difficulties, nonce, proof)
    case Calling(text, nonce, proof) => GoNonce(text) == Some(nonce) && Passed(verify, challenges, difficulties, nonce, proof)
  }

  predicate CallOk(verify: bool, challenges: seq<Bytes32>, difficulties: seq<int>, c: Call)
  {
    c.account.Valid() && GoNonce(c.text) == Some(c.nonce) && Passed(verify, challenges, difficulties, c.nonce, c.proof)
  }

  predicate CacheInv(s: State)
  {
    (s.challenge.Some? ==> s.challenge.value in s.challenges) && (s.difficulty.Some? ==> s.difficulty.value in s.difficulties)
  }

  predicate DataInv(s: State)
  {
    && (forall i :: 0 <= i < |s.accounts| ==> s.accounts[i].Valid())
    && (forall i :: 0 <= i < |s.handlers| ==> HandlerOk(s.verify, s.challenges, s.difficulties, s.handlers[i]))
    && (forall j :: 0 <= j < |s.calls| ==> CallOk(s.verify, s.challenges, s.difficulties, s.calls[j]))
    && CacheInv(s)
  }

  predicate Inv(s: State) { |s.handlers| == |s.accounts| && KeysInv(s) && DataInv(s) }

  lemma InitInv(accounts: seq<Account>, verify: bool)
    requires forall i :: 0 <= i < |accounts| ==> accounts[i].Valid()
    ensures Inv(Init(accounts, verify))
  {
  }

  // Handlers that are about to call, before and after one of them moves on
  // without claiming.
  lemma MoveKeys(s: State, i: nat, h: Handler)
    requires |s.handlers| == |s.accounts| && KeysInv(s) && i < |s.handlers| && !h.Calling?
    ensures KeysInv(s.(handlers := s.handlers[i := h]))
  {
    hide Key;
  }

  lemma ClaimKeys(s: State, i: nat, h: Handler, now: nat)
    requires |s.handlers| == |s.accounts| && KeysInv(s) && i < |s.handlers| && h.Calling? && Key(s.accounts[i], h.text) !in s.submitted
    ensures KeysInv(s.(handlers := s.handlers[i := h], submitted := s.submitted[Key(s.accounts[i], h.text) := now]))
  {
    hide Key;
  }

  lemma CallKeys(s: State, i: nat)
    requires |s.handlers| == |s.accounts| && KeysInv(s) && i < |s.handlers| && s.handlers[i].Calling?
    ensures var h := s.handlers[i];
            KeysInv(s.(handlers := s.handlers[i := Waiting], calls := s.calls + [Call(s.accounts[i], h.text, h.nonce, h.proof)]))
  {
    hide Key;
  }

  lemma StepKeys(s: State, a: Action)
    requires Inv(s) && Enabled(s, a)
    ensures |Apply(s, a).handlers| == |Apply(s, a).accounts| && KeysInv(Apply(s, a))
  {
    hide GoNonce, GoVerify, DataInv, Key, KeysInv;
    match a
    case Found(i, text) => MoveKeys(s, i, StartFound(s.verify, text));
    case Step(i, now) =>
      var h := s.handlers[i];
      if h.Calling? {
        CallKeys(s, i);
      } else if h.Claiming? && Key(s.accounts[i], h.text) !in s.submitted {
        ClaimKeys(s, i, Calling(h.text, h.nonce, h.proof), now);
      } else {
        MoveKeys(s, i, Apply(s, a).handlers[i]);
      }
    case _ => StoreKeys(s, a);
  }

  lemma StoreKeys(s: State, a: Action)
    requires Enabled(s, a) && KeysInv(s) && (a.StoreDifficulty? || a.StoreChallenge?)
    ensures KeysInv(Apply(s, a))
  {
    hide Key, GoNonce, GoVerify;
  }

  // Nothing is verified against an empty cache: the difficulty is then zero.
  lemma ZeroDifficulty(ch: Bytes32, nonce: seq<byte>) ensures !GoVerify(ch, nonce, 0) {}

  lemma HandlerGrows(verify: bool, cs: seq<Bytes32>, ds: seq<int>, ch: Bytes32, d: int, h: Handler)
    requires HandlerOk(verify, cs, ds, h)
    ensures HandlerOk(verify, cs + [ch], ds, h) && HandlerOk(verify, cs, ds + [d], h)
  {
    hide GoNonce, GoVerify;
  }

  lemma CallGrows(verify: bool, cs: seq<Bytes32>, ds: seq<int>, ch: Bytes32, d: int, c: Call)
    requires CallOk(verify, cs, ds, c)
    ensures CallOk(verify, cs + [ch], ds, c) && CallOk(verify, cs, ds + [d], c)
  {
    hide GoNonce, GoVerify;
  }

  lemma StoreData(s: State, a: Action)
    requires Inv(s) && Enabled(s, a) && (a.StoreDifficulty? || a.StoreChallenge?)
    ensures DataInv(Apply(s, a))
  {
    hide GoNonce, GoVerify, KeysInv, HandlerOk, CallOk;
    var q := Apply(s, a);
    forall i | 0 <= i < |q.handlers| ensures HandlerOk(q.verify, q.challenges, q.difficulties, q.handlers[i])
    {
      if a.StoreDifficulty? { HandlerGrows(s.verify, s.challenges, s.difficulties, ZERO32, a.difficulty, s.handlers[i]); }
      else { HandlerGrows(s.verify, s.challenges, s.difficulties, a.challenge, 0, s.handlers[i]); }
    }
    forall j | 0 <= j < |q.calls| ensures CallOk(q.verify, q.challenges, q.difficulties, q.calls[j])
    {
      if a.StoreDifficulty? { CallGrows(s.verify, s.challenges, s.difficulties, ZERO32, a.difficulty, s.calls[j]); }
      else { CallGrows(s.verify, s.challenges, s.difficulties, a.challenge, 0, s.calls[j]); }
    }
  }

  // What one handler becomes, and the call it makes, are well supported.
  lemma MovedOk(s: State, i: nat, now: nat)
    requires Inv(s) && Enabled(s, Step(i, now))
    ensures var q := Apply(s, Step(i, now));
            HandlerOk(q.verify, q.challenges, q.difficulties, q.handlers[i]) &&
            (s.handlers[i].Calling? ==>
              CallOk(s.verify, s.challenges, s.difficulties, Call(s.accounts[i], s.handlers[i].text, s.handlers[i].nonce, s.handlers[i].proof)))
  {
    hide GoNonce, GoVerify, KeysInv, Key, CallOk;
    var h := s.handlers[i];
    assert HandlerOk(s.verify, s.challenges, s.difficulties, h) && s.accounts[i].Valid();
    if h.Comparing? { ZeroDifficulty(h.challenge, h.nonce); }
    if h.Calling? { CallIsOk(s.verify, s.challenges, s.difficulties, s.accounts[i], h); }
  }

  lemma CallIsOk(verify: bool, cs: seq<Bytes32>, ds: seq<int>, account: Account, h: Handler)
    requires account.Valid() && h.Calling? && HandlerOk(verify, cs, ds, h)
    ensures CallOk(verify, cs, ds, Call(account, h.text, h.nonce, h.proof))
  {
    hide GoNonce, GoVerify;
  }

  lemma StepShape(s: State, i: nat, now: nat)
    requires Enabled(s, Step(i, now))
    ensures var q := Apply(s, Step(i, now)); var h := s.handlers[i];
            q.handlers == s.handlers[i := q.handlers[i]] && q.accounts == s.accounts && q.verify == s.verify &&
            q.challenges == s.challenges && q.difficulties == s.difficulties &&
            q.challenge == s.challenge && q.difficulty == s.difficulty &&
            q.calls == if h.Calling? then s.calls + [Call(s.accounts[i], h.text, h.nonce, h.proof)] else s.calls
  {
    hide GoVerify, Key;
  }

  lemma StepData(s: State, i: nat, now: nat)
    requires Inv(s) && Enabled(s, Step(i, now))
    ensures DataInv(Apply(s, Step(i, now)))
  {
    hide Apply, KeysInv, DataInv, HandlerOk, CallOk;
    MovedOk(s, i, now);
    StepShape(s, i, now);
    MovedData(s, Apply(s, Step(i, now)), i);
  }

  lemma MovedData(s: State, q: State, i: nat)
    requires DataInv(s) && i < |s.handlers| && i < |q.handlers| && q.handlers == s.handlers[i := q.handlers[i]]
    requires q.accounts == s.accounts && q.verify == s.verify && q.challenges == s.challenges && q.difficulties == s.difficulties
    requires q.challenge == s.challenge && q.difficulty == s.difficulty
    requires HandlerOk(q.verify, q.challenges, q.difficulties, q.handlers[i])
    requires q.calls == s.calls || (|q.calls| == |s.calls| + 1 && q.calls[..|s.calls|] == s.calls &&
                                    CallOk(s.verify, s.challenges, s.difficulties, q.calls[|s.calls|]))
    ensures DataInv(q)
  {
    hide HandlerOk, CallOk;
    forall j | 0 <= j < |q.calls| ensures CallOk(q.verify, q.challenges, q.difficulties, q.calls[j])
    {
      if j < |s.calls| { assert q.calls[j] == s.calls[j]; }
    }
  }

  lemma FoundData(s: State, i: nat, text: string)
    requires Inv(s) && Enabled(s, Found(i, text))
    ensures DataInv(Apply(s, Found(i, text)))
  {
    hide GoNonce, GoVerify, KeysInv, CallOk;
  }

  lemma StepInv(s: State, a: Action)
    requires Inv(s) && Enabled(s, a)
    ensures Inv(Apply(s, a))
  {
    hide DataInv, KeysInv, Apply;
    StepKeys(s, a);
    match a
    case Found(i, text) => FoundData(s, i, text);
    case Step(i, now) => StepData(s, i, now);
    case _ => StoreData(s, a);
  }

  lemma StepVerify(s: State, a: Action)
    requires Enabled(s, a)
    ensures Apply(s, a).verify == s.verify
  {
    hide GoNonce, GoVerify, Key;
  }

  lemma {:induction false} ScheduleInv(s: State, acts: seq<Action>)
    requires Inv(s) && Schedule(s, acts)
    ensures Inv(After(s, acts)) && After(s, acts).verify == s.verify
    decreases |acts|
  {
    hide Inv, Apply, Enabled;
    if acts != [] {
      StepInv(s, acts[0]);
      StepVerify(s, acts[0]);
      ScheduleInv(Apply(s, acts[0]), acts[1..]);
    }
  }

  /* What every interleaving guarantees */

  // The key says which account and which text.
  lemma KeyInjective(a: Account, b: Account, s: string, t: string)
    requires a.Valid() && b.Valid()
    ensures Key(a, s) == Key(b, t) <==> a.address == b.address && s == t
  {
    hide Encode, Lower;
    if Key(a, s) == Key(b, t) {
      assert Key(a, s)[..42] == ToHex(a.address) && Key(b, t)[..42] == ToHex(b.address);
      assert Key(a, s)[43..] == s && Key(b, t)[43..] == t;
      PrintedInjective(a.address, b.address);
    }
  }

  // No two calls are for the same address and the same nonce text, nor, for
  // texts as the core prints them, for the same address and 256-bit nonce.
  predicate Distinct(c: Call, d: Call)
  {
    && !(c.account.address == d.account.address && c.text == d.text)
    && (c.text == ToHex(c.nonce) && d.text == ToHex(d.nonce) ==>
          !(c.account.address == d.account.address && Value(c.nonce) == Value(d.nonce)))
  }

  lemma KeysDistinct(verify: bool, cs: seq<Bytes32>, ds: seq<int>, c: Call, d: Call)
    requires CallOk(verify, cs, ds, c) && CallOk(verify, cs, ds, d) && CallKey(c) != CallKey(d)
    ensures Distinct(c, d)
  {
    hide Value, Encode, Lower, GoVerify, Key, Decode;
    KeyInjective(c.account, d.account, c.text, d.text);
    if Value(c.nonce) == Value(d.nonce) { ValueInjective(c.nonce, d.nonce); }
  }

  // The digest of the call's nonce is below the difficulty it was checked with.
  predicate BelowDifficulty(c: Call)
  {
    c.proof.Some? && (Value(Fips202.Keccak256(c.proof.value.challenge + c.nonce)) as int) < c.proof.value.difficulty
  }

  // Submit once, and only what was verified.
  lemma SubmitOnce(accounts: seq<Account>, verify: bool, acts: seq<Action>)
    requires forall i :: 0 <= i < |accounts| ==> accounts[i].Valid()
    requires Schedule(Init(accounts, verify), acts)
    ensures var s := After(Init(accounts, verify), acts);
            && (forall j, k :: 0 <= j < k < |s.calls| ==> Distinct(s.calls[j], s.calls[k]))
            && (forall j :: 0 <= j < |s.calls| ==> CallOk(verify, s.challenges, s.difficulties, s.calls[j]))
            && (forall j :: 0 <= j < |s.calls| && verify ==> BelowDifficulty(s.calls[j]))
  {
    hide After, Schedule, CallOk, Distinct, CallKey, HandlerOk;
    InitInv(accounts, verify);
    ScheduleInv(Init(accounts, verify), acts);
    var s := After(Init(accounts, verify), acts);
    forall j, k | 0 <= j < k < |s.calls| ensures Distinct(s.calls[j], s.calls[k])
    {
      KeysDistinct(verify, s.challenges, s.difficulties, s.calls[j], s.calls[k]);
    }
    forall j | 0 <= j < |s.calls| && verify ensures BelowDifficulty(s.calls[j])
    {
      CallBelow(s.challenges, s.difficulties, s.calls[j]);
    }
  }

  lemma CallBelow(cs: seq<Bytes32>, ds: seq<int>, c: Call)
    requires CallOk(true, cs, ds, c)
    ensures BelowDifficulty(c)
  {
    hide Value, GoNonce, Fips202.Keccak256;
  }

  /* The caches */

  // What pollState stored, in order, and the last of it.
  function ChallengesIn(acts: seq<Action>): seq<Bytes32>
  {
    if acts == [] then [] else (if acts[0].StoreChallenge? then [acts[0].challenge] else []) + ChallengesIn(acts[1..])
  }

  function DifficultiesIn(acts: seq<Action>): seq<int>
  {
    if acts == [] then [] else (if acts[0].StoreDifficulty? then [acts[0].difficulty] else []) + DifficultiesIn(acts[1..])
  }

  function LastOf<T>(before: Option<T>, xs: seq<T>): Option<T> { if xs == [] then before else Some(xs[|xs| - 1]) }

  lemma StepCaches(s: State, a: Action)
    requires Enabled(s, a)
    ensures var q := Apply(s, a);
            q.challenge == LastOf(s.challenge, ChallengesIn([a])) && q.challenges == s.challenges + ChallengesIn([a]) &&
            q.difficulty == LastOf(s.difficulty, DifficultiesIn([a])) && q.difficulties == s.difficulties + DifficultiesIn([a])
  {
    hide GoNonce, GoVerify, Key;
    assert s.challenges + [] == s.challenges && s.difficulties + [] == s.difficulties;
  }

  lemma {:induction false} ScheduleCaches(s: State, acts: seq<Action>)
    requires Schedule(s, acts)
    ensures var q := After(s, acts);
            q.challenge == LastOf(s.challenge, ChallengesIn(acts)) && q.challenges == s.challenges + ChallengesIn(acts) &&
            q.difficulty == LastOf(s.difficulty, DifficultiesIn(acts)) && q.difficulties == s.difficulties + DifficultiesIn(acts)
    decreases |acts|
  {
    hide Apply, Enabled;
    if acts != [] {
      StepCaches(s, acts[0]);
      ScheduleCaches(Apply(s, acts[0]), acts[1..]);
      assert ChallengesIn([acts[0]]) + ChallengesIn(acts[1..]) == ChallengesIn(acts);
      assert DifficultiesIn([acts[0]]) + DifficultiesIn(acts[1..]) == DifficultiesIn(acts);
    }
  }

  // Whatever the handlers do, the caches hold what was stored last.
  lemma CachesAreLatest(accounts: seq<Account>, verify: bool, acts: seq<Action>)
    requires Schedule(Init(accounts, verify), acts)
    ensures var s := After(Init(accounts, verify), acts);
            && s.challenge == LastOf(None, ChallengesIn(acts)) && s.challenges == ChallengesIn(acts)
            && s.difficulty == LastOf(None, DifficultiesIn(acts)) && s.difficulties == DifficultiesIn(acts)
  {
    ScheduleCaches(Init(accounts, verify), acts);
  }

  /* Other spellings of a nonce escape the map */

  // The texts onFound decodes to a nonce: at most one "0x", then its digits in
  // either case.
  lemma GoNonceExactly(text: string, nonce: seq<byte>)
    ensures GoNonce(text) == Some(nonce) <==> |nonce| == 32 && Lower(TrimPrefix(text)) == Encode(nonce)
  {
    hide Encode, Decode, Lower;
    var t := TrimPrefix(text);
    if GoNonce(text) == Some(nonce) {
      EncodeDecode(t);
    } else if |nonce| == 32 && Lower(t) == Encode(nonce) {
      DecodeEncode(nonce);
      LowerDecodes(t);
      assert false;
    }
  }

  // The canonical spelling and the bare digits are two texts of one nonce.
  lemma BareDigits(nonce: seq<byte>)
    requires |nonce| == 32
    ensures GoNonce(ToHex(nonce)) == Some(nonce) && GoNonce(Encode(nonce)) == Some(nonce) && ToHex(nonce) != Encode(nonce)
  {
    hide Encode, Decode;
    GoReadsPrinted(nonce);
    TrimPrinted(nonce);
    DecodeEncode(nonce);
    NoPrefix(nonce);
  }

  lemma NoPrefix(nonce: seq<byte>)
    ensures TrimPrefix(Encode(nonce)) == Encode(nonce)
  {
    hide Encode;
    TrimPrinted(nonce);
    if "0x" <= Encode(nonce) { assert |TrimStart(Encode(nonce)[2..])| < |Encode(nonce)| by { TrimShrinks(Encode(nonce)[2..]); } }
  }

  lemma {:induction false} TrimShrinks(s: string) ensures |TrimStart(s)| <= |s|
  {
    if "0x" <= s { TrimShrinks(s[2..]); }
  }

  /* A handler running alone */

  predicate Accepts(s: State, nonce: seq<byte>)
  {
    s.verify ==> s.challenge.Some? && GoVerify(s.challenge.value, nonce, Cached(s.difficulty))
  }

  function ProofNow(s: State): Option<Proof>
  {
    if s.verify && s.challenge.Some? then Some(Proof(s.challenge.value, Cached(s.difficulty))) else None
  }

  // The whole of onFound, with nothing else in between.
  function FoundOutcome(s: State, i: nat, text: string, now: nat): State
    requires i < |s.accounts|
  {
    var key := Key(s.accounts[i], text);
    match GoNonce(text)
    case None => s
    case Some(nonce) =>
      if !Accepts(s, nonce) || key in s.submitted then s
      else s.(submitted := s.submitted[key := now], calls := s.calls + [Call(s.accounts[i], text, nonce, ProofNow(s))])
  }

  // The digest with the cached challenge is below the cached difficulty, zero
  // if there is none.
  predicate BelowCached(s: State, nonce: seq<byte>)
  {
    s.challenge.Some? &&
    (Value(Fips202.Keccak256(s.challenge.value + nonce)) as int) < (match s.difficulty case Some(d) => d case None => 0)
  }

  // Exactly when a handler left alone calls, on the event, the caches and the
  // map: the text decodes, it is new for the account, and with verification on
  // a challenge is cached and the digest is below the cached difficulty. The
  // call is then for that nonce; otherwise nothing changes.
  lemma CallsExactly(s: State, i: nat, text: string, now: nat)
    requires i < |s.accounts|
    ensures var q, n := FoundOutcome(s, i, text, now), GoNonce(text);
            if n.Some? && Key(s.accounts[i], text) !in s.submitted && (s.verify ==> BelowCached(s, n.value))
            then |q.calls| == |s.calls| + 1 && q.calls[..|s.calls|] == s.calls &&
                 q.calls[|s.calls|].account == s.accounts[i] && q.calls[|s.calls|].nonce == n.value &&
                 q.submitted.Keys == s.submitted.Keys + {Key(s.accounts[i], text)}
            else q == s
  {
    hide Value, GoNonce, Fips202.Keccak256, Key;
  }

  predicate Reaches(s: State, acts: seq<Action>, q: State) { Schedule(s, acts) && After(s, acts) == q }

  lemma Prepend(s: State, a: Action, rest: seq<Action>, q: State)
    requires Enabled(s, a) && Reaches(Apply(s, a), rest, q)
    ensures Reaches(s, [a] + rest, q)
  {
    hide Enabled, Apply;
    assert ([a] + rest)[1..] == rest;
  }

  lemma SetTwice(hs: seq<Handler>, i: nat, h: Handler)
    requires i < |hs|
    ensures hs[i := h][i := hs[i]] == hs
  {
  }

  // From its critical section on.
  lemma ClaimAlone(s: State, i: nat, now: nat) returns (acts: seq<Action>)
    requires |s.handlers| == |s.accounts| && i < |s.handlers| && s.handlers[i].Claiming?
    ensures var h := s.handlers[i]; var key := Key(s.accounts[i], h.text); var idle := s.(handlers := s.handlers[i := Waiting]);
            Reaches(s, acts,
              if key in s.submitted then idle
              else idle.(submitted := s.submitted[key := now], calls := s.calls + [Call(s.accounts[i], h.text, h.nonce, h.proof)]))
  {
    hide Key;
    var h := s.handlers[i];
    var s1 := Apply(s, Step(i, now));
    if Key(s.accounts[i], h.text) in s.submitted {
      assert Reaches(s1, [], s1);
      Prepend(s, Step(i, now), [], s1);
      acts := [Step(i, now)] + [];
    } else {
      assert s1.handlers[i] == Calling(h.text, h.nonce, h.proof);
      var s2 := Apply(s1, Step(i, now));
      assert s2.handlers == s.handlers[i := Waiting];
      assert Reaches(s2, [], s2);
      Prepend(s1, Step(i, now), [], s2);
      Prepend(s, Step(i, now), [Step(i, now)] + [], s2);
      acts := [Step(i, now)] + ([Step(i, now)] + []);
    }
  }

  // From its loads on.
  lemma VerifyAlone(s: State, i: nat, now: nat) returns (acts: seq<Action>)
    requires |s.handlers| == |s.accounts| && i < |s.handlers| && s.handlers[i].Verifying? && s.verify
    ensures var h := s.handlers[i]; var key := Key(s.accounts[i], h.text); var idle := s.(handlers := s.handlers[i := Waiting]);
            Reaches(s, acts,
              if !Accepts(s, h.nonce) || key in s.submitted then idle
              else idle.(submitted := s.submitted[key := now], calls := s.calls + [Call(s.accounts[i], h.text, h.nonce, ProofNow(s))]))
  {
    hide Key, GoVerify;
    var h := s.handlers[i];
    var s1 := Apply(s, Step(i, now));
    if s.challenge.None? {
      assert Reaches(s1, [], s1);
      Prepend(s, Step(i, now), [], s1);
      acts := [Step(i, now)] + [];
    } else {
      var s2 := Apply(s1, Step(i, now));
      var rest := [];
      hide Reaches;
      if GoVerify(s.challenge.value, h.nonce, Cached(s.difficulty)) {
        assert s2.handlers == s.handlers[i := Claiming(h.text, h.nonce, ProofNow(s))];
        assert s2.handlers[i := Waiting] == s.handlers[i := Waiting];
        rest := ClaimAlone(s2, i, now);
      } else {
        assert s2.handlers == s.handlers[i := Waiting];
        NoSteps(s2);
      }
      var q := if !Accepts(s, h.nonce) || Key(s.accounts[i], h.text) in s.submitted then s.(handlers := s.handlers[i := Waiting])
               else s.(handlers := s.handlers[i := Waiting], submitted := s.submitted[Key(s.accounts[i], h.text) := now],
                       calls := s.calls + [Call(s.accounts[i], h.text, h.nonce, ProofNow(s))]);
      assert Reaches(s2, rest, q);
      Prepend(s1, Step(i, now), rest, q);
      Prepend(s, Step(i, now), [Step(i, now)] + rest, q);
      acts := [Step(i, now)] + ([Step(i, now)] + rest);
    }
  }

  lemma NoSteps(s: State) ensures Reaches(s, [], s) {}

  // The steps of a handler that nothing interrupts add up to onFound.
  lemma OnFoundIsSchedule(s: State, i: nat, text: string, now: nat) returns (acts: seq<Action>)
    requires |s.handlers| == |s.accounts| && i < |s.handlers| && s.handlers[i] == Waiting
    ensures Reaches(s, acts, FoundOutcome(s, i, text, now))
  {
    hide GoNonce, GoVerify, Key, Reaches;
    var s1 := Apply(s, Found(i, text));
    var h := StartFound(s.verify, text);
    SetTwice(s.handlers, i, h);
    assert s1.(handlers := s1.handlers[i := Waiting]) == s;
    var q := FoundOutcome(s, i, text, now);
    var rest := [];
    if GoNonce(text).None? {
      assert s.handlers[i := Waiting] == s.handlers;
      assert s1 == q;
      NoSteps(s1);
    } else if s.verify {
      rest := VerifyAlone(s1, i, now);
      assert Accepts(s1, GoNonce(text).value) == Accepts(s, GoNonce(text).value) && ProofNow(s1) == ProofNow(s);
      assert Reaches(s1, rest, q);
    } else {
      rest := ClaimAlone(s1, i, now);
      assert Reaches(s1, rest, q);
    }
    Prepend(s, Found(i, text), rest, FoundOutcome(s, i, text, now));
    acts := [Found(i, text)] + rest;
  }

  // Two accepted texts of one nonce, found one after the other by one account
  // and not seen before, are submitted once when they are the same text and
  // twice, for the same nonce, when they are not.
  lemma SpelledTwice(s: State, i: nat, a: string, b: string, nonce: seq<byte>, now: nat)
    requires Inv(s) && i < |s.accounts| && GoNonce(a) == Some(nonce) && GoNonce(b) == Some(nonce) && Accepts(s, nonce)
    requires Key(s.accounts[i], a) !in s.submitted && Key(s.accounts[i], b) !in s.submitted
    ensures var q := FoundOutcome(FoundOutcome(s, i, a, now), i, b, now);
            && |q.calls| == |s.calls| + (if a == b then 1 else 2)
            && (forall k :: |s.calls| <= k < |q.calls| ==> q.calls[k].account == s.accounts[i] && q.calls[k].nonce == nonce)
  {
    hide GoNonce, GoVerify, Key, KeysInv, HandlerOk, CallOk;
    KeyInjective(s.accounts[i], s.accounts[i], a, b);
  }

  // A failed SubmitMine is never retried: the key stays.
  lemma NeverRetried(s: State, acts: seq<Action>, i: nat, text: string, now: nat)
    requires |s.handlers| == |s.accounts| && i < |s.accounts| && Schedule(s, acts) && Key(s.accounts[i], text) in s.submitted
    ensures var q := After(s, acts); i < |q.accounts| && FoundOutcome(q, i, text, now) == q
  {
    hide Key, Apply, Enabled;
    KeyStays(s, acts, Key(s.accounts[i], text));
  }

  lemma StepStays(s: State, a: Action, key: string)
    requires Enabled(s, a) && key in s.submitted
    ensures Apply(s, a).accounts == s.accounts && key in Apply(s, a).submitted
  {
    hide GoNonce, GoVerify, Key;
  }

  lemma {:induction false} KeyStays(s: State, acts: seq<Action>, key: string)
    requires Schedule(s, acts) && key in s.submitted
    ensures After(s, acts).accounts == s.accounts && key in After(s, acts).submitted
    decreases |acts|
  {
    hide Apply, Enabled;
    if acts != [] {
      StepStays(s, acts[0], key);
      KeyStays(Apply(s, acts[0]), acts[1..], key);
    }
  }

  /* The engine's own fields */

  // The engine as the source holds it: every handler works on these fields.
  class Engine {
    const accounts: seq<Account>
    const verifyBeforeSubmit: bool
    var challenge: Option<Bytes32>
    var difficulty: Option<int>
    var submitted: map<string, nat>
    ghost var calls: seq<Call>
    ghost var challenges: seq<Bytes32>
    ghost var difficulties: seq<int>

    // Between events every handler waits.
    ghost function View(): State
      reads this
    {
      State(accounts, verifyBeforeSubmit, challenge, difficulty, submitted, seq(|accounts|, _ => Waiting), calls, challenges, difficulties)
    }

    constructor (accounts: seq<Account>, verify: bool)
      ensures View() == Init(accounts, verify)
    {
      this.accounts, verifyBeforeSubmit := accounts, verify;
      challenge, difficulty, submitted := None, None, map[];
      calls, challenges, difficulties := [], [], [];
    }

    // The two stores of pollState; the challenge is kept when it cannot be read.
    method PollState(newDifficulty: int, newChallenge: Option<Bytes32>)
      modifies this
      ensures var s := Apply(old(View()), StoreDifficulty(newDifficulty));
              View() == if newChallenge.None? then s else Apply(s, StoreChallenge(newChallenge.value))
    {
      difficulty := Some(newDifficulty);
      difficulties := difficulties + [newDifficulty];
      if newChallenge.Some? {
        challenge := newChallenge;
        challenges := challenges + [newChallenge.value];
      }
    }

    // The section under submittedMu: is this text new for this account?
    method TestAndSet(i: nat, text: string, now: nat) returns (isNew: bool)
      requires i < |accounts|
      modifies this`submitted
      ensures isNew <==> Key(accounts[i], text) !in old(submitted)
      ensures submitted == if isNew then old(submitted)[Key(accounts[i], text) := now] else old(submitted)
    {
      var key := Key(accounts[i], text);
      if key in submitted { return false; }
      submitted := submitted[key := now];
      return true;
    }

    method OnFound(i: nat, text: string, now: nat)
      requires i < |accounts|
      modifies this
      ensures View() == FoundOutcome(old(View()), i, text, now)
    {
      var nonce := GoNonce(text);
      if nonce.None? { return; }
      if verifyBeforeSubmit {
        if challenge.None? { return; }
        var ok := VerifyLocal(challenge.value, nonce.value, Cached(difficulty));
        if !ok { return; }
      }
      ghost var proof := ProofNow(View());
      var isNew := TestAndSet(i, text, now);
      if !isNew { return; }
      calls := calls + [Call(accounts[i], text, nonce.value, proof)];
    }
  }
}
