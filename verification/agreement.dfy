// The two languages together: a job the Go engine prints, mined by the Rust
// core, and the found nonce coming back to the engine.
module Agreement {
  import opened Words
  import opened Bytes
  import opened Hex
  import opened Mining
  import RunThread
  import RunEvents
  import Submit
  import Fips202

  // challengeToHex32
  function ChallengeToHex32(challenge: Submit.Bytes32): string { ToHex(challenge) }

  // The job the core parses from the strings the engine prints.
  predicate JobFor(job: Job, challenge: Submit.Bytes32, difficulty: int)
  {
    ParseHex32(ChallengeToHex32(challenge)) == Parsed(job.challenge) &&
    ParseHex32(DifficultyToHex32(Some(difficulty))) == Parsed(job.target)
  }

  // Such a job is the engine's challenge and its difficulty modulo 2^256.
  lemma JobCrosses(job: Job, challenge: Submit.Bytes32, difficulty: int)
    requires JobFor(job, challenge, difficulty)
    ensures job.challenge == challenge && job.target == DifficultyBytes(Some(difficulty))
    ensures Value(job.target) == Hex.Abs(difficulty) % TWO256
  {
    hide Value, Encode, DifficultyBytes, ParseHex32;
    ParsePrinted32(challenge);
    DifficultyRoundTrip(Some(difficulty));
  }

  // What the core finds for a job printed by the engine, the engine decodes to
  // the same nonce, and its own check passes exactly when the difficulty is
  // not negative.
  lemma FoundPassesVerifyLocal(job: Job, challenge: Submit.Bytes32, difficulty: int, e: RunThread.Event)
    requires JobFor(job, challenge, difficulty) && e.FoundEvent? && RunEvents.Verifies(job, e)
    ensures var r := GoNonce(e.nonce);
            r.Some? && e.nonce == ToHex(r.value) && (GoVerify(challenge, r.value, difficulty) <==> difficulty >= 0)
  {
    hide Value, Encode, DifficultyBytes, TrimStart, JobFor, Fips202.Keccak256;
    JobCrosses(job, challenge, difficulty);
    var n := ParseHex32(e.nonce).bytes;
    GoReadsPrinted(n);
    hide GoNonce;
    Remainder(difficulty);
  }

  lemma Remainder(difficulty: int)
    ensures difficulty >= 0 ==> Hex.Abs(difficulty) % TWO256 <= difficulty
  {
  }

  // So while the caches still hold the job's challenge and difficulty, a found
  // nonce not seen before leads to exactly one call, with that nonce.
  lemma FoundIsSubmitted(s: Submit.State, i: nat, job: Job, challenge: Submit.Bytes32, difficulty: nat, e: RunThread.Event, now: nat)
    requires i < |s.accounts| && s.challenge == Some(challenge) && s.difficulty == Some(difficulty)
    requires JobFor(job, challenge, difficulty) && e.FoundEvent? && RunEvents.Verifies(job, e)
    requires Submit.Key(s.accounts[i], e.nonce) !in s.submitted
    ensures var q := Submit.FoundOutcome(s, i, e.nonce, now);
            |q.calls| == |s.calls| + 1 && q.calls[..|s.calls|] == s.calls &&
            q.calls[|s.calls|].account == s.accounts[i] && Parsed(q.calls[|s.calls|].nonce) == ParseHex32(e.nonce)
  {
    FoundPassesVerifyLocal(job, challenge, difficulty, e);
    var r := GoNonce(e.nonce).value;
    assert ParseHex32(e.nonce) == Parsed(r) by { ParsePrinted32(r); }
    hide GoNonce, GoVerify, ParseHex32, JobFor, RunEvents.Verifies, Submit.Key;
  }
}
