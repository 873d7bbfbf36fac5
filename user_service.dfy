/** PIN quality rules and user-code generation (src/services/userService.js). */
module UserService {
  import opened Common

  /** The alphabet user codes are drawn from: digits, then upper-case letters. */
  const Alphabet: string := "0123456789ABCDEFGHIJKLMNOPQRSTUVWXYZ"
  const CodeLength: nat := 6

  const Ascending: string := "0123456789"
  const Descending: string := "9876543210"

  const FormatMessage: string := "PIN must be exactly 6 digits."
  const IdenticalMessage: string := "PIN cannot consist of identical digits."
  const SequentialMessage: string := "PIN cannot be sequential."

  /** `{valid: true}` or `{valid: false, message}`. */
  datatype PinCheck = Accepted | Rejected(message: string)
  {
    predicate Valid() { Accepted? }
  }

  /** `\d` without the unicode flag: an ASCII digit. */
  predicate IsDigit(c: char) {
    '0' <= c <= '9'
  }

  /** `/^\d{6}$/` */
  predicate SixDigits(pin: string) {
    |pin| == 6 && forall i :: 0 <= i < |pin| ==> IsDigit(pin[i])
  }

  /** `/^(\d)\1{5}$/`: a digit followed by five repetitions of it. */
  predicate IdenticalDigits(pin: string) {
    |pin| == 6 && IsDigit(pin[0]) && forall i :: 1 <= i < 6 ==> pin[i] == pin[0]
  }

  /** The six-character runs of consecutive digits, counting up or down,
      stated without any substring search. */
  predicate IsRun(pin: string) {
    exists k: nat :: k <= 4 && (pin == RunOf(Ascending, k) || pin == RunOf(Descending, k))
  }

  /** The six characters of `line` starting at position `k`. */
  function RunOf(line: string, k: nat): string {
    if k + 6 <= |line| then line[k..k + 6] else ""
  }

  /** `validatePin`: format first, then identical digits, then runs of
      consecutive digits (searched for with `includes`). */
  function ValidatePin(pin: string): (r: PinCheck)
    ensures r.Valid() <==> SixDigits(pin) && !IdenticalDigits(pin) && !IsRun(pin)
    ensures !SixDigits(pin) ==> r == Rejected(FormatMessage)
    ensures SixDigits(pin) && IdenticalDigits(pin) ==> r == Rejected(IdenticalMessage)
    ensures SixDigits(pin) && !IdenticalDigits(pin) && IsRun(pin) ==> r == Rejected(SequentialMessage)
  {
    if !SixDigits(pin) then Rejected(FormatMessage)
    else if IdenticalDigits(pin) then Rejected(IdenticalMessage)
    else
      IncludesSixIsRun(pin);
      if Includes(Ascending, pin) || Includes(Descending, pin) then Rejected(SequentialMessage)
      else Accepted
  }

  /** For a six-character string, `includes` on either digit line is exactly
      being one of the runs. */
  lemma IncludesSixIsRun(pin: string)
    requires |pin| == 6
    ensures Includes(Ascending, pin) || Includes(Descending, pin) <==> IsRun(pin)
  {
    IncludesIff(Ascending, pin);
    IncludesIff(Descending, pin);
    if IsRun(pin) {
      var k: nat :| k <= 4 && (pin == RunOf(Ascending, k) || pin == RunOf(Descending, k));
      if pin == RunOf(Ascending, k) {
        assert OccursAt(Ascending, pin, k);
      } else {
        assert OccursAt(Descending, pin, k);
      }
    }
    if Includes(Ascending, pin) {
      var k: nat :| OccursAt(Ascending, pin, k);
      assert k <= 4 && pin == RunOf(Ascending, k);
    }
    if Includes(Descending, pin) {
      var k: nat :| OccursAt(Descending, pin, k);
      assert k <= 4 && pin == RunOf(Descending, k);
    }
  }

  /** Every run of consecutive digits is refused, and refused as sequential. */
  lemma {:induction false} EveryRunRejected(k: nat, descending: bool)
    requires k <= 4
    ensures ValidatePin(RunOf(if descending then Descending else Ascending, k)) == Rejected(SequentialMessage)
  {
    var pin := RunOf(if descending then Descending else Ascending, k);
    assert SixDigits(pin);
    assert pin[1] != pin[0];
    assert IsRun(pin);
  }

  /** A code is six characters of the alphabet. */
  predicate IsUserCode(code: string) {
    |code| == CodeLength && forall i :: 0 <= i < |code| ==> InAlphabet(code[i])
  }

  /** The characters of the alphabet: a digit or an upper-case letter. */
  predicate InAlphabet(c: char) {
    '0' <= c <= '9' || 'A' <= c <= 'Z'
  }

  /** Six random positions in the alphabet, standing for the six values of
      `Math.floor(Math.random() * chars.length)`. */
  predicate ValidDraw(draw: seq<nat>) {
    |draw| == CodeLength && forall i :: 0 <= i < |draw| ==> draw[i] < |Alphabet|
  }

  /** The code a draw spells. */
  function CodeOf(draw: seq<nat>): (code: string)
    requires ValidDraw(draw)
    ensures IsUserCode(code)
  {
    seq(CodeLength, i requires 0 <= i < CodeLength => Alphabet[draw[i]])
  }

  /** The draw that spells a given code: each character's alphabet position. */
  function DrawOf(code: string): (draw: seq<nat>)
    requires IsUserCode(code)
    ensures ValidDraw(draw)
    ensures CodeOf(draw) == code
  {
    var draw := seq(CodeLength, i requires 0 <= i < CodeLength => PositionIn(Alphabet, code[i]));
    assert forall i :: 0 <= i < CodeLength ==> Alphabet[draw[i]] == code[i];
    draw
  }

  function PositionIn(s: string, c: char): (k: nat)
    requires c in s
    ensures k < |s| && s[k] == c
  {
    if s[0] == c then 0 else 1 + PositionIn(s[1..], c)
  }

  /** `generateUserCode`: appends one character per drawn position. Every
      user code is the result of some draw (see `DrawOf`). */
  method GenerateUserCode(draw: seq<nat>) returns (code: string)
    requires ValidDraw(draw)
    ensures code == CodeOf(draw)
    ensures IsUserCode(code)
  {
    code := "";
    for i := 0 to CodeLength
      invariant |code| == i
      invariant forall j :: 0 <= j < i ==> code[j] == Alphabet[draw[j]]
    {
      code := code + [Alphabet[draw[i]]];
    }
  }

  /** `getUniqueUserCode`: draws codes until one is not held by any user.
      `draws` is the sequence of random draws the loop would consume; the
      source loops for as long as it takes, so at least one drawn code must
      be free. */
  method GetUniqueUserCode(draws: seq<seq<nat>>, taken: set<string>) returns (code: string, used: nat)
    requires forall k :: 0 <= k < |draws| ==> ValidDraw(draws[k])
    requires exists k :: 0 <= k < |draws| && CodeOf(draws[k]) !in taken
    ensures IsUserCode(code) && code !in taken
    ensures 1 <= used <= |draws| && code == CodeOf(draws[used - 1])
    ensures forall k :: 0 <= k < used - 1 ==> CodeOf(draws[k]) in taken
  {
    ghost var free :| 0 <= free < |draws| && CodeOf(draws[free]) !in taken;
    var isUnique := false;
    code, used := "", 0;
    while !isUnique
      invariant used <= |draws|
      invariant forall k :: 0 <= k < used - 1 ==> CodeOf(draws[k]) in taken
      invariant !isUnique ==> used <= free
      invariant !isUnique ==> forall k :: 0 <= k < used ==> CodeOf(draws[k]) in taken
      invariant isUnique ==> 1 <= used && code == CodeOf(draws[used - 1]) && code !in taken
      decreases |draws| - used
    {
      code := GenerateUserCode(draws[used]);
      used := used + 1;
      if code !in taken {
        isUnique := true;
      }
    }
    assert isUnique;
  }
}
