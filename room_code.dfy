/**
 * Room-code generation: eight characters drawn from A-Z and 0-9, drawn
 * again while the code is already taken. The random draws are supplied;
 * attempt `t` uses draws 8t to 8t+7. The source retries without bound;
 * here the draws run out, and then no code is produced.
 */
module RoomCodes {
  import opened Wrappers
  import opened Entities
  import opened Roles

  const Alphabet := "ABCDEFGHIJKLMNOPQRSTUVWXYZ0123456789"

  predicate InAlphabet(c: Code) {
    forall i :: 0 <= i < |c| ==> c[i] in Alphabet
  }

  /** The code attempt `t` spells: `chars.charAt(random.nextInt(36))`, eight times. */
  function Attempt(draws: seq<nat>, t: nat): (c: Code)
    ensures |c| == CodeLength && InAlphabet(c)
  {
    var c := seq(CodeLength, i requires 0 <= i < CodeLength => Alphabet[Pick(draws, CodeLength * t + i, |Alphabet|)]);
    assert forall i :: 0 <= i < |c| ==> c[i] == Alphabet[Pick(draws, CodeLength * t + i, |Alphabet|)];
    c
  }

  /** Attempt `t` has all eight of its draws. */
  predicate HasAttempt(draws: seq<nat>, t: nat) {
    CodeLength * (t + 1) <= |draws|
  }

  /** The do-while of `generateRoomCode`, from attempt `t` on. */
  function RoomCodeFrom(existing: set<Code>, draws: seq<nat>, t: nat): (r: Option<Code>)
    ensures r.Some? ==> r.value !in existing && |r.value| == CodeLength && InAlphabet(r.value)
    decreases |draws| - CodeLength * t
  {
    if !HasAttempt(draws, t) then None
    else if Attempt(draws, t) !in existing then Some(Attempt(draws, t))
    else RoomCodeFrom(existing, draws, t + 1)
  }

  function GeneratedCode(existing: set<Code>, draws: seq<nat>): Option<Code> {
    RoomCodeFrom(existing, draws, 0)
  }

  /**
   * The code produced is the first attempt not already taken; none is
   * produced only when every attempt the draws allow is taken.
   */
  lemma {:induction false} FirstFreeAttempt(existing: set<Code>, draws: seq<nat>, t: nat) returns (u: nat)
    requires RoomCodeFrom(existing, draws, t).Some?
    ensures t <= u && HasAttempt(draws, u) && RoomCodeFrom(existing, draws, t).value == Attempt(draws, u)
    ensures forall v :: t <= v < u ==> Attempt(draws, v) in existing
    decreases |draws| - CodeLength * t
  {
    if Attempt(draws, t) in existing {
      u := FirstFreeAttempt(existing, draws, t + 1);
    } else {
      u := t;
    }
  }

  lemma {:induction false} AllAttemptsTaken(existing: set<Code>, draws: seq<nat>, t: nat)
    ensures RoomCodeFrom(existing, draws, t).None? ==>
      forall u :: t <= u && HasAttempt(draws, u) ==> Attempt(draws, u) in existing
    decreases |draws| - CodeLength * t
  {
    if HasAttempt(draws, t) && Attempt(draws, t) in existing {
      AllAttemptsTaken(existing, draws, t + 1);
    }
  }

  /** `generateRoomCode`: an inner loop builds each attempt, the outer loop retries while it is taken. */
  method GenerateRoomCode(existing: set<Code>, draws: seq<nat>) returns (code: Option<Code>)
    ensures code == GeneratedCode(existing, draws)
  {
    var t := 0;
    while true
      invariant RoomCodeFrom(existing, draws, t) == RoomCodeFrom(existing, draws, 0)
      decreases |draws| - CodeLength * t
    {
      if !HasAttempt(draws, t) {
        return None;
      }
      var sb := "";
      var i := 0;
      while i < CodeLength
        invariant 0 <= i <= CodeLength
        invariant sb == Attempt(draws, t)[..i]
      {
        sb := sb + [Alphabet[Pick(draws, CodeLength * t + i, |Alphabet|)]];
        i := i + 1;
      }
      assert sb == Attempt(draws, t);
      if sb !in existing {
        return Some(sb);
      }
      t := t + 1;
    }
  }
}
