/** redact_sensitive of apps/api/app/ai/gateway.py: two regular expressions, each substituted from left to
    right over non-overlapping matches.

    The matchers are written as the backtracking engine runs them, longest repetition first, and are
    proved against the plain meaning of the two expressions. Which characters beyond ASCII are decimal
    digits or word characters is a parameter, so every result holds for every Unicode version. */
module Redaction {
  import opened Wrappers

  // ---- characters -------------------------------------------------------------------------------

  datatype Unicode = Unicode(decimal: char -> bool, alphanumeric: char -> bool)

  predicate Ascii(c: char) { c < 128 as char }
  predicate Letter(c: char) { 'a' <= c <= 'z' || 'A' <= c <= 'Z' }
  predicate AsciiDigit(c: char) { '0' <= c <= '9' }

  predicate Digit(u: Unicode, c: char) {
    AsciiDigit(c) || (!Ascii(c) && u.decimal(c))
  }

  predicate Word(u: Unicode, c: char) {
    Letter(c) || AsciiDigit(c) || c == '_' || (!Ascii(c) && (u.decimal(c) || u.alphanumeric(c)))
  }

  predicate Local(c: char) { Letter(c) || AsciiDigit(c) || c == '.' || c == '_' || c == '%' || c == '+' || c == '-' }
  predicate Domain(c: char) { Letter(c) || AsciiDigit(c) || c == '.' || c == '-' }
  predicate Dialled(u: Unicode, c: char) { Digit(u, c) || c == ' ' || c == '(' || c == ')' || c == '-' }

  function InNumber(u: Unicode): char -> bool { c => Dialled(u, c) }

  predicate WordAt(u: Unicode, s: string, p: int) { 0 <= p < |s| && Word(u, s[p]) }
  predicate DigitAt(u: Unicode, s: string, p: int) { 0 <= p < |s| && Digit(u, s[p]) }
  predicate Boundary(u: Unicode, s: string, p: int) { WordAt(u, s, p - 1) != WordAt(u, s, p) }

  // ---- what the expressions mean ----------------------------------------------------------------

  predicate All(s: string, i: int, j: int, f: char -> bool)
    requires 0 <= i <= j <= |s|
  {
    forall x :: i <= x < j ==> f(s[x])
  }

  // An address without its word boundaries: local part, '@' at k, domain, last dot at d, letters.
  predicate Shape(s: string, i: nat, k: nat, d: nat, j: nat) {
    && i < k && k + 1 < d && d + 3 <= j <= |s|
    && All(s, i, k, Local) && s[k] == '@' && All(s, k + 1, d, Domain) && s[d] == '.' && All(s, d + 1, j, Letter)
  }

  predicate Core(s: string, i: nat, j: nat) {
    exists k, d | i < k < j && i < d < j :: Shape(s, i, k, d, j)
  }

  predicate EmailAt(u: Unicode, s: string, i: nat, j: nat) {
    Core(s, i, j) && Boundary(u, s, i) && Boundary(u, s, j)
  }

  // Where the digits of a phone number starting at i start.
  function Dial(s: string, i: nat): nat {
    if i < |s| && s[i] == '+' then i + 1 else i
  }

  // A number without what must not stand next to it.
  predicate Number(u: Unicode, s: string, i: nat, j: nat) {
    var q := Dial(s, i);
    && q + 9 <= j <= |s|
    && Digit(u, s[q]) && All(s, q + 1, j - 1, InNumber(u)) && Digit(u, s[j - 1])
  }

  predicate PhoneAt(u: Unicode, s: string, i: nat, j: nat) {
    Number(u, s, i, j) && !DigitAt(u, s, i - 1) && !DigitAt(u, s, j)
  }

  datatype Pass = Email | Phone

  predicate MatchAt(u: Unicode, pass: Pass, s: string, i: nat, j: nat) {
    match pass
    case Email => EmailAt(u, s, i, j)
    case Phone => PhoneAt(u, s, i, j)
  }

  // ---- how they are matched ---------------------------------------------------------------------

  // A greedy repetition: the end of the maximal run of f from p.
  function RunEnd(s: string, p: nat, f: char -> bool): (e: nat)
    requires p <= |s|
    ensures p <= e <= |s| && All(s, p, e, f) && (e < |s| ==> !f(s[e]))
    decreases |s| - p
  {
    if p < |s| && f(s[p]) then RunEnd(s, p + 1, f) else p
  }

  // Giving back domain characters, one at a time, from d down.
  function LastDot(u: Unicode, s: string, from: nat, d: nat): Option<nat>
    requires from < d <= |s|
    decreases d
  {
    var here := if d < |s| && s[d] == '.' then RunEnd(s, d + 1, Letter) else 0;
    if here >= d + 3 && Boundary(u, s, here) then Some(here)
    else if d - 1 > from then LastDot(u, s, from, d - 1)
    else None
  }

  function EmailEnd(u: Unicode, s: string, i: nat): Option<nat> {
    if i >= |s| || !Boundary(u, s, i) then None
    else
      var k := RunEnd(s, i, Local);
      if k == i || k == |s| || s[k] != '@' then None
      else
        var r := RunEnd(s, k + 1, Domain);
        if r == k + 1 then None else LastDot(u, s, k + 1, r)
  }

  // Giving back dialled characters, one at a time, from e down.
  function LastDigit(u: Unicode, s: string, least: nat, e: nat): Option<nat>
    requires e <= |s|
    decreases e
  {
    if e < least then None
    else if DigitAt(u, s, e) && !DigitAt(u, s, e + 1) then Some(e + 1)
    else if e == 0 then None
    else LastDigit(u, s, least, e - 1)
  }

  function PhoneEnd(u: Unicode, s: string, i: nat): Option<nat> {
    var q := Dial(s, i);
    if DigitAt(u, s, i - 1) || !DigitAt(u, s, q) then None
    else LastDigit(u, s, q + 8, RunEnd(s, q + 1, InNumber(u)))
  }

  function End(u: Unicode, pass: Pass, s: string, i: nat): Option<nat> {
    match pass
    case Email => EmailEnd(u, s, i)
    case Phone => PhoneEnd(u, s, i)
  }

  // ---- the matchers find the longest match ------------------------------------------------------

  lemma {:induction false} LastDotFinds(u: Unicode, s: string, i: nat, k: nat, r: nat, d: nat)
    requires i < k && k + 1 < d <= r <= |s|
    requires All(s, i, k, Local) && s[k] == '@' && All(s, k + 1, r, Domain)
    ensures var e := LastDot(u, s, k + 1, d);
            && (e.Some? ==> Core(s, i, e.value) && Boundary(u, s, e.value))
            && forall d': nat, j: nat | k + 1 < d' <= d && Shape(s, i, k, d', j) && Boundary(u, s, j) ::
                 e.Some? && j <= e.value
    decreases d
  {
    if d < |s| && s[d] == '.' {
      var here := RunEnd(s, d + 1, Letter);
      if here >= d + 3 && Boundary(u, s, here) {
        assert Shape(s, i, k, d, here);
      }
      forall j: nat | Shape(s, i, k, d, j) && Boundary(u, s, j)
        ensures j == here
      {
        LettersEndAtRun(u, s, d + 1, j);
      }
    }
    if d - 1 > k + 1 {
      LastDotFinds(u, s, i, k, r, d - 1);
    }
    forall d': nat, j: nat | k + 1 < d' < d && Shape(s, i, k, d', j) && d < |s| && s[d] == '.'
      ensures j <= d
    {
      assert j <= d || Letter(s[d]);
    }
  }

  lemma {:induction false} RunEndIs(s: string, p: nat, k: nat, f: char -> bool)
    requires p <= k <= |s| && All(s, p, k, f)
    ensures k <= RunEnd(s, p, f)
    ensures k == |s| || !f(s[k]) ==> RunEnd(s, p, f) == k
    decreases k - p
  {
    if p < k {
      RunEndIs(s, p + 1, k, f);
    }
  }

  // Letters that stop at a word boundary stop where the run of letters does.
  lemma LettersEndAtRun(u: Unicode, s: string, p: nat, j: nat)
    requires p < j <= |s| && All(s, p, j, Letter) && Boundary(u, s, j)
    ensures RunEnd(s, p, Letter) == j
  {
    assert Letter(s[j - 1]);
    RunEndIs(s, p, j, Letter);
  }

  lemma EmailEndFinds(u: Unicode, s: string, i: nat)
    ensures var e := EmailEnd(u, s, i);
            && (e.Some? ==> EmailAt(u, s, i, e.value))
            && forall j: nat | EmailAt(u, s, i, j) :: e.Some? && j <= e.value
  {
    forall k: nat, d: nat, j: nat | Shape(s, i, k, d, j)
      ensures RunEnd(s, i, Local) == k && d < RunEnd(s, k + 1, Domain)
    {
      RunEndIs(s, i, k, Local);
      RunEndIs(s, k + 1, d + 1, Domain);
    }
    if i < |s| && Boundary(u, s, i) {
      var k := RunEnd(s, i, Local);
      if k != i && k < |s| && s[k] == '@' {
        var r := RunEnd(s, k + 1, Domain);
        if r != k + 1 {
          LastDotFinds(u, s, i, k, r, r);
        }
      }
    }
  }

  lemma {:induction false} LastDigitFinds(u: Unicode, s: string, least: nat, e: nat)
    requires e <= |s|
    ensures var r := LastDigit(u, s, least, e);
            && (r.Some? ==> least < r.value <= e + 1 && DigitAt(u, s, r.value - 1) && !DigitAt(u, s, r.value))
            && forall j: nat | least < j <= e + 1 && DigitAt(u, s, j - 1) && !DigitAt(u, s, j) ::
                 r.Some? && j <= r.value
    decreases e
  {
    if e >= least && e > 0 {
      LastDigitFinds(u, s, least, e - 1);
    }
  }

  lemma PhoneEndFinds(u: Unicode, s: string, i: nat)
    ensures var e := PhoneEnd(u, s, i);
            && (e.Some? ==> PhoneAt(u, s, i, e.value))
            && forall j: nat | PhoneAt(u, s, i, j) :: e.Some? && j <= e.value
  {
    var q := Dial(s, i);
    if !DigitAt(u, s, i - 1) && DigitAt(u, s, q) {
      var r := RunEnd(s, q + 1, InNumber(u));
      LastDigitFinds(u, s, q + 8, r);
      forall j: nat | PhoneAt(u, s, i, j)
        ensures PhoneEnd(u, s, i).Some? && j <= PhoneEnd(u, s, i).value
      {
        assert All(s, q + 1, j - 1, InNumber(u));
        RunEndIs(s, q + 1, j - 1, InNumber(u));
        assert DigitAt(u, s, j - 1) && !DigitAt(u, s, j) && q + 8 < j <= r + 1;
      }
    }
  }

  /** The backtracking matchers are exact: they fail only where the expression matches nothing, and
      otherwise end the longest match that starts there. */
  lemma EndFinds(u: Unicode, pass: Pass, s: string, i: nat)
    ensures var e := End(u, pass, s, i);
            && (e.Some? ==> i < e.value <= |s| && MatchAt(u, pass, s, i, e.value))
            && forall j: nat | MatchAt(u, pass, s, i, j) :: e.Some? && j <= e.value
  {
    EmailEndFinds(u, s, i);
    PhoneEndFinds(u, s, i);
  }

  /** An address that uses every character the expression allows beside letters and digits. */
  lemma AddressExample(u: Unicode)
    ensures EmailAt(u, "a.B_3%d+e-f@g-h.8.Jk", 0, 20)
  {
    var s := "a.B_3%d+e-f@g-h.8.Jk";
    assert All(s, 0, 11, Local) && All(s, 12, 17, Domain) && All(s, 18, 20, Letter);
    assert !WordAt(u, s, -1) && WordAt(u, s, 0) && WordAt(u, s, 19) && !WordAt(u, s, 20);
    hide All, WordAt;
    assert Shape(s, 0, 11, 17, 20);
  }

  /** And numbers that do, and that are as short as can be. */
  lemma NumberExample(u: Unicode)
    ensures PhoneAt(u, "+1 (23)-4 56", 0, 12) && PhoneAt(u, "012345678", 0, 9)
  {
    var s, t := "+1 (23)-4 56", "012345678";
    assert All(s, 2, 11, InNumber(u)) && All(t, 1, 8, InNumber(u));
    hide All;
  }

  // ---- substitution -----------------------------------------------------------------------------

  const EMAIL_MARK: string := "[REDACTED_EMAIL]"
  const PHONE_MARK: string := "[REDACTED_PHONE]"

  function Marker(pass: Pass): string {
    match pass
    case Email => EMAIL_MARK
    case Phone => PHONE_MARK
  }

  // re.sub from position p on: matches are sought in the original text, context included.
  function Sub(u: Unicode, pass: Pass, s: string, p: nat): string
    decreases |s| - p
  {
    if p >= |s| then ""
    else
      EndFinds(u, pass, s, p);
      match End(u, pass, s, p)
      case Some(j) => Marker(pass) + Sub(u, pass, s, j)
      case None => [s[p]] + Sub(u, pass, s, p + 1)
  }

  function Redact(u: Unicode, text: string): string {
    Sub(u, Phone, Sub(u, Email, text, 0), 0)
  }

  // ---- only the matches are replaced ------------------------------------------------------------

  // Stretches of s from p on, none empty and none overlapping.
  predicate InOrder(s: string, p: nat, cuts: seq<(nat, nat)>)
    decreases |cuts|
  {
    p <= |s| && (cuts != [] ==> p <= cuts[0].0 < cuts[0].1 <= |s| && InOrder(s, cuts[0].1, cuts[1..]))
  }

  // The text from p on with a mark in place of each of them, and all the rest as it is.
  function Splice(s: string, p: nat, cuts: seq<(nat, nat)>, mark: string): string
    requires InOrder(s, p, cuts)
    decreases |cuts|
  {
    if cuts == [] then s[p..] else s[p..cuts[0].0] + mark + Splice(s, cuts[0].1, cuts[1..], mark)
  }

  // They are the matches, taken from left to right, each as long as it can be.
  ghost predicate Leftmost(u: Unicode, pass: Pass, s: string, p: nat, cuts: seq<(nat, nat)>)
    requires InOrder(s, p, cuts)
    decreases |cuts|
  {
    && (forall i: nat, j: nat | p <= i < (if cuts == [] then |s| else cuts[0].0) :: !MatchAt(u, pass, s, i, j))
    && (cuts != [] ==>
          && MatchAt(u, pass, s, cuts[0].0, cuts[0].1)
          && (forall j: nat | MatchAt(u, pass, s, cuts[0].0, j) :: j <= cuts[0].1)
          && Leftmost(u, pass, s, cuts[0].1, cuts[1..]))
  }

  lemma FirstStays(c: char, a: string, mark: string, rest: string)
    ensures ([c] + a) + mark + rest == [c] + (a + mark + rest)
  {
  }

  lemma KeepsText(s: string, p: nat, cuts: seq<(nat, nat)>, mark: string)
    requires p < |s| && InOrder(s, p + 1, cuts)
    ensures InOrder(s, p, cuts) && Splice(s, p, cuts, mark) == [s[p]] + Splice(s, p + 1, cuts, mark)
  {
    if cuts == [] {
      assert s[p..] == [s[p]] + s[p + 1..];
    } else {
      assert s[p..cuts[0].0] == [s[p]] + s[p + 1..cuts[0].0];
      FirstStays(s[p], s[p + 1..cuts[0].0], mark, Splice(s, cuts[0].1, cuts[1..], mark));
    }
  }

  lemma KeepsOne(u: Unicode, pass: Pass, s: string, p: nat, cuts: seq<(nat, nat)>, mark: string)
    requires p < |s| && InOrder(s, p + 1, cuts) && Leftmost(u, pass, s, p + 1, cuts)
    requires forall j: nat :: !MatchAt(u, pass, s, p, j)
    ensures InOrder(s, p, cuts) && Leftmost(u, pass, s, p, cuts)
    ensures Splice(s, p, cuts, mark) == [s[p]] + Splice(s, p + 1, cuts, mark)
  {
    hide MatchAt, Splice;
    KeepsText(s, p, cuts, mark);
  }

  lemma CutsOne(u: Unicode, pass: Pass, s: string, p: nat, j: nat, cuts: seq<(nat, nat)>, mark: string)
    requires p < j <= |s| && InOrder(s, j, cuts) && Leftmost(u, pass, s, j, cuts)
    requires MatchAt(u, pass, s, p, j) && forall j': nat | MatchAt(u, pass, s, p, j') :: j' <= j
    ensures InOrder(s, p, [(p, j)] + cuts) && Leftmost(u, pass, s, p, [(p, j)] + cuts)
    ensures Splice(s, p, [(p, j)] + cuts, mark) == mark + Splice(s, j, cuts, mark)
  {
    hide MatchAt;
    assert ([(p, j)] + cuts)[1..] == cuts;
    assert s[p..p] + mark == mark;
  }

  /** A pass replaces the leftmost, longest matches of its expression by its marker, and keeps all the rest. */
  lemma {:induction false} SubReplaces(u: Unicode, pass: Pass, s: string, p: nat) returns (cuts: seq<(nat, nat)>)
    requires p <= |s|
    ensures InOrder(s, p, cuts) && Leftmost(u, pass, s, p, cuts)
    ensures Sub(u, pass, s, p)
            == Splice(s, p, cuts, if pass == Email then "[REDACTED_EMAIL]" else "[REDACTED_PHONE]")
    decreases |s| - p
  {
    var mark := if pass == Email then "[REDACTED_EMAIL]" else "[REDACTED_PHONE]";
    if p == |s| {
      cuts := [];
    } else {
      SubStep(u, pass, s, p);
      EndFinds(u, pass, s, p);
      hide Sub, End, MatchAt, Leftmost, Splice, InOrder;
      match End(u, pass, s, p) {
        case Some(j) =>
          cuts := SubReplaces(u, pass, s, j);
          CutsOne(u, pass, s, p, j, cuts, mark);
          cuts := [(p, j)] + cuts;
        case None =>
          cuts := SubReplaces(u, pass, s, p + 1);
          KeepsOne(u, pass, s, p, cuts, mark);
      }
    }
  }

  /** So redact_sensitive writes "[REDACTED_EMAIL]" for the addresses, then "[REDACTED_PHONE]" for the numbers,
      and touches nothing else. */
  lemma RedactReplaces(u: Unicode, text: string) returns (addresses: seq<(nat, nat)>, numbers: seq<(nat, nat)>)
    ensures InOrder(text, 0, addresses) && Leftmost(u, Email, text, 0, addresses)
    ensures var first := Splice(text, 0, addresses, "[REDACTED_EMAIL]");
            && InOrder(first, 0, numbers) && Leftmost(u, Phone, first, 0, numbers)
            && Redact(u, text) == Splice(first, 0, numbers, "[REDACTED_PHONE]")
  {
    addresses := SubReplaces(u, Email, text, 0);
    numbers := SubReplaces(u, Phone, Sub(u, Email, text, 0), 0);
    hide Sub, Leftmost, Splice;
  }

  // ---- and none is left --------------------------------------------------------------------------

  ghost predicate Free(u: Unicode, pass: Pass, s: string) {
    forall i: nat, j: nat :: !MatchAt(u, pass, s, i, j)
  }

  // Position p of s has been reached with x written so far: the last character written is the last
  // one read, or else closes the marker of a match that ends at p.
  ghost predicate Reached(u: Unicode, pass: Pass, s: string, p: nat, x: string) {
    && p <= |s|
    && if p == 0 then x == ""
       else
         && x != ""
         && (x[|x| - 1] == s[p - 1]
             || (x[|x| - 1] == ']' && exists i: nat | i < p :: MatchAt(u, pass, s, i, p)))
  }

  lemma SubStep(u: Unicode, pass: Pass, s: string, p: nat)
    requires p < |s|
    ensures match End(u, pass, s, p)
            case None => Sub(u, pass, s, p) == [s[p]] + Sub(u, pass, s, p + 1)
            case Some(j) =>
              p < j <= |s| && MatchAt(u, pass, s, p, j) && Sub(u, pass, s, p) == Marker(pass) + Sub(u, pass, s, j)
  {
    EndFinds(u, pass, s, p);
  }

  predicate Unmarked(out: string, n: nat) {
    n <= |out| && forall x :: 0 <= x < n ==> out[x] != '['
  }

  lemma UnmarkedTail(c: char, rest: string, n: nat)
    requires n > 0 && Unmarked([c] + rest, n)
    ensures Unmarked(rest, n - 1)
  {
    assert forall x :: 0 <= x < n - 1 ==> rest[x] == ([c] + rest)[x + 1];
  }

  lemma UnmarkedStep(u: Unicode, pass: Pass, s: string, p: nat, n: nat)
    requires p <= |s| && n > 0 && Unmarked(Sub(u, pass, s, p), n)
    ensures p < |s| && End(u, pass, s, p).None?
    ensures Sub(u, pass, s, p) == [s[p]] + Sub(u, pass, s, p + 1) && Unmarked(Sub(u, pass, s, p + 1), n - 1)
  {
    var out := Sub(u, pass, s, p);
    assert out != "" && out[0] != '[';
    SubStep(u, pass, s, p);
    MarkerChars(pass);
    hide Sub, End, MatchAt, Marker;
    if End(u, pass, s, p).None? {
      UnmarkedTail(s[p], Sub(u, pass, s, p + 1), n);
    }
  }

  // A stretch of output without '[' is a stretch of input that no match starts in.
  lemma {:induction false} KeptStretch(u: Unicode, pass: Pass, s: string, p: nat, n: nat)
    requires p <= |s| && Unmarked(Sub(u, pass, s, p), n)
    ensures p + n <= |s|
    ensures Sub(u, pass, s, p) == s[p..p + n] + Sub(u, pass, s, p + n)
    ensures forall x :: p <= x < p + n ==> End(u, pass, s, x).None?
    decreases n
  {
    hide *;
    if n == 0 {
      assert s[p..p] + Sub(u, pass, s, p) == Sub(u, pass, s, p);
    } else {
      UnmarkedStep(u, pass, s, p, n);
      KeptStretch(u, pass, s, p + 1, n - 1);
      ConsStretch(s, p, p + n, Sub(u, pass, s, p + n));
    }
  }

  lemma ConsStretch(s: string, i: nat, j: nat, rest: string)
    requires i < j <= |s|
    ensures [s[i]] + (s[i + 1..j] + rest) == s[i..j] + rest
  {
    assert s[i..j] == [s[i]] + s[i + 1..j];
  }

  // ---- markers ----------------------------------------------------------------------------------

  predicate Inert(c: char) { Letter(c) || c == '_' || c == '[' || c == ']' }

  lemma MarkerChars(pass: Pass)
    ensures var m := Marker(pass);
            && |m| == 16 && m[0] == '[' && m[15] == ']'
            && forall x :: 0 <= x < 16 ==> Inert(m[x])
  {
    assert forall c | c in EMAIL_MARK :: Inert(c);
    assert forall c | c in PHONE_MARK :: Inert(c);
  }

  // What every match starts with: local characters up to an '@', or a digit, perhaps after a '+'.
  lemma EmailStarts(u: Unicode, s: string, i: nat, j: nat)
    ensures EmailAt(u, s, i, j) ==> exists k :: i < k < j <= |s| && s[k] == '@' && All(s, i, k, Local)
  {
    if EmailAt(u, s, i, j) {
      var k, d :| i < k < j && i < d < j && Shape(s, i, k, d, j);
      assert i < k < j <= |s| && s[k] == '@' && All(s, i, k, Local);
    }
  }

  // Characters the two expressions can match.
  predicate Matchable(u: Unicode, pass: Pass, c: char) {
    match pass
    case Email => Local(c) || Domain(c) || c == '@'
    case Phone => Dialled(u, c) || c == '+'
  }

  lemma MatchesAreMatchable(u: Unicode, pass: Pass, s: string, i: nat, j: nat)
    requires MatchAt(u, pass, s, i, j)
    ensures i < j <= |s| && forall x :: i <= x < j ==> Matchable(u, pass, s[x])
  {
    if pass == Email {
      var k, d :| i < k < j && i < d < j && Shape(s, i, k, d, j);
    }
  }

  // No match starts inside a marker, whatever follows it.
  lemma MarkerStartsNoMatch(u: Unicode, pass: Pass, mark: Pass, x: string, y: string, i: nat, j: nat)
    requires |x| <= i < |x| + 16
    ensures !MatchAt(u, pass, x + Marker(mark) + y, i, j)
  {
    MarkerChars(mark);
    var t := x + Marker(mark) + y;
    hide Marker, Core;
    assert forall z :: |x| <= z < |x| + 16 ==> t[z] == Marker(mark)[z - |x|] && Inert(t[z]);
    var close := |x| + 15;
    assert t[close] == ']' && !Local(t[close]);
    EmailStarts(u, t, i, j);
    assert forall k :: close < k <= |t| ==> !All(t, i, k, Local);
  }

  // ---- matches in the output come from the input ------------------------------------------------

  // The same characters have the same shape wherever they stand.
  lemma CoreMoves(t: string, i: nat, s: string, p: nat, n: nat)
    requires i + n <= |t| && p + n <= |s| && t[i..i + n] == s[p..p + n]
    requires Core(t, i, i + n)
    ensures Core(s, p, p + n)
  {
    var k, d :| i < k < i + n && i < d < i + n && Shape(t, i, k, d, i + n);
    SameChars(t, i, s, p, n);
    assert Shape(s, p, p + (k - i), p + (d - i), p + n);
  }

  lemma SameChars(t: string, i: nat, s: string, p: nat, n: nat)
    requires i + n <= |t| && p + n <= |s| && t[i..i + n] == s[p..p + n]
    ensures forall y :: p <= y < p + n ==> s[y] == t[i + (y - p)]
    ensures n > 0 ==> s[p] == t[i] && s[p + n - 1] == t[i + n - 1]
  {
    forall y | p <= y < p + n
      ensures s[y] == t[i + (y - p)]
    {
      assert s[y] == s[p..p + n][y - p] && t[i + (y - p)] == t[i..i + n][y - p];
    }
  }

  lemma NextChar(u: Unicode, pass: Pass, s: string, q: nat)
    requires q <= |s|
    ensures q == |s| ==> Sub(u, pass, s, q) == ""
    ensures q < |s| ==>
              var out := Sub(u, pass, s, q);
              |out| > 0 && out[0] == if End(u, pass, s, q).None? then s[q] else '['
  {
    if q < |s| {
      SubStep(u, pass, s, q);
      MarkerChars(pass);
    }
  }

  // Matches hold no '['.
  lemma MatchesHoldNoMarker(u: Unicode, target: Pass, x: string, out: string, n: nat)
    requires MatchAt(u, target, x + out, |x|, |x| + n)
    ensures 0 < n && Unmarked(out, n)
  {
    var t := x + out;
    MatchesAreMatchable(u, target, t, |x|, |x| + n);
    hide MatchAt;
    assert forall y :: 0 <= y < n ==> out[y] == t[|x| + y];
  }

  // A match right where the scan stands is a stretch of the input that the scan keeps.
  lemma StretchOf(u: Unicode, pass: Pass, target: Pass, s: string, p: nat, x: string, t: string, n: nat)
    requires p <= |s| && t == x + Sub(u, pass, s, p) && MatchAt(u, target, t, |x|, |x| + n)
    ensures n > 0 && |x| + n <= |t| && p + n <= |s| && t[|x|..|x| + n] == s[p..p + n]
    ensures forall y :: p <= y < p + n ==> End(u, pass, s, y).None?
    ensures |x| + n < |t| <==> p + n < |s|
    ensures p + n < |s| ==> t[|x| + n] == if End(u, pass, s, p + n).None? then s[p + n] else '['
  {
    var out := Sub(u, pass, s, p);
    MatchesHoldNoMarker(u, target, x, out, n);
    hide MatchAt, Sub, End;
    KeptStretch(u, pass, s, p, n);
    NextChar(u, pass, s, p + n);
    SplitAfter(x, out, n);
  }

  lemma SplitAfter(x: string, out: string, n: nat)
    requires n <= |out|
    ensures var t := x + out;
            t[|x|..|x| + n] == out[..n] && |t| - |x| - n == |out[n..]| && (n < |out| ==> t[|x| + n] == out[n..][0])
  {
  }

  lemma EmailEndsInLetter(u: Unicode, s: string, i: nat, j: nat)
    requires EmailAt(u, s, i, j)
    ensures i < j <= |s| && Letter(s[j - 1]) && Local(s[i]) && !WordAt(u, s, j)
  {
    var k, d :| i < k < j && i < d < j && Shape(s, i, k, d, j);
    assert Letter(s[j - 1]) && Local(s[i]);
  }

  // Replacing emails cannot bring a match to a stretch that was kept: neither boundary can appear.
  lemma KeptStretchHasNoEmail(u: Unicode, s: string, p: nat, x: string, t: string, n: nat)
    requires p < |s| && Reached(u, Email, s, p, x) && t == x + Sub(u, Email, s, p)
    requires End(u, Email, s, p).None?
    ensures !EmailAt(u, t, |x|, |x| + n)
  {
    if EmailAt(u, t, |x|, |x| + n) {
      KeptEmailWasEmail(u, s, p, x, t, n);
      hide EmailAt, EmailEnd, Sub, Reached;
      EndFinds(u, Email, s, p);
    }
  }

  lemma KeptEmailWasEmail(u: Unicode, s: string, p: nat, x: string, t: string, n: nat)
    requires p < |s| && Reached(u, Email, s, p, x) && t == x + Sub(u, Email, s, p)
    requires EmailAt(u, t, |x|, |x| + n)
    ensures MatchAt(u, Email, s, p, p + n)
  {
    StretchOf(u, Email, Email, s, p, x, t, n);
    EmailEndsInLetter(u, t, |x|, |x| + n);
    hide Core, EmailEnd, Sub, Reached, Boundary;
    CoreMoves(t, |x|, s, p, n);
    SameChars(t, |x|, s, p, n);
    RightBoundary(u, s, p + n, t, |x| + n);
    LeftBoundary(u, s, p, x, t);
  }

  // A word boundary after a kept letter was one in the input, or the start of a replaced address was.
  lemma RightBoundary(u: Unicode, s: string, q: nat, t: string, r: nat)
    requires 0 < q <= |s| && 0 < r <= |t| && s[q - 1] == t[r - 1] && Letter(t[r - 1])
    requires r < |t| <==> q < |s|
    requires q < |s| ==> t[r] == if End(u, Email, s, q).None? then s[q] else '['
    requires Boundary(u, t, r)
    ensures Boundary(u, s, q)
  {
    EndFinds(u, Email, s, q);
    hide Core, EmailEnd;
  }

  // A word boundary before the next character of the output was one in the input.
  lemma LeftBoundary(u: Unicode, s: string, p: nat, x: string, t: string)
    requires p < |s| && Reached(u, Email, s, p, x) && |x| < |t| && t[..|x|] == x && t[|x|] == s[p]
    requires Boundary(u, t, |x|)
    ensures Boundary(u, s, p)
  {
    if p > 0 && x[|x| - 1] != s[p - 1] {
      var i: nat :| i < p && MatchAt(u, Email, s, i, p);
      EmailEndsInLetter(u, s, i, p);
    }
  }

  lemma NumberMoves(u: Unicode, t: string, i: nat, s: string, p: nat, n: nat)
    requires i + n <= |t| && p + n <= |s| && t[i..i + n] == s[p..p + n]
    requires Number(u, t, i, i + n)
    ensures Number(u, s, p, p + n) && n >= 9 && s[p] == t[i] && Digit(u, s[p + n - 1])
  {
    SameChars(t, i, s, p, n);
  }

  // A number that stands where the scan does was one in the input, up to what stands next to it.
  lemma KeptNumber(u: Unicode, pass: Pass, s: string, p: nat, x: string, t: string, n: nat)
    requires p < |s| && Reached(u, pass, s, p, x) && t == x + Sub(u, pass, s, p)
    requires PhoneAt(u, t, |x|, |x| + n)
    ensures p + n <= |s| && Number(u, s, p, p + n) && n >= 9 && s[p] == t[|x|]
    ensures !DigitAt(u, s, p + n)
    ensures forall y :: p <= y < p + n ==> End(u, pass, s, y).None?
  {
    StretchOf(u, pass, Phone, s, p, x, t, n);
    hide Sub, Reached, End, EmailEnd, PhoneEnd, Core;
    KeptNumberEnds(u, pass, s, p, t, |x|, n);
  }

  lemma KeptNumberEnds(u: Unicode, pass: Pass, s: string, p: nat, t: string, r: nat, n: nat)
    requires r + n <= |t| && p + n <= |s| && t[r..r + n] == s[p..p + n] && PhoneAt(u, t, r, r + n)
    requires r + n < |t| <==> p + n < |s|
    requires p + n < |s| ==> t[r + n] == if End(u, pass, s, p + n).None? then s[p + n] else '['
    ensures Number(u, s, p, p + n) && n >= 9 && s[p] == t[r]
    ensures !DigitAt(u, s, p + n)
  {
    hide Number, End;
    NumberMoves(u, t, r, s, p, n);
    if End(u, pass, s, p + n).Some? {
      NoDigitAfter(u, pass, s, p + n);
    }
  }

  // A match that starts right after a digit starts with no digit.
  lemma NoDigitAfter(u: Unicode, pass: Pass, s: string, q: nat)
    requires 0 < q <= |s| && Digit(u, s[q - 1]) && End(u, pass, s, q).Some?
    ensures !DigitAt(u, s, q)
  {
    EndFinds(u, pass, s, q);
  }

  // Replacing emails introduces no phone number.
  lemma KeptNumberWasPhone(u: Unicode, s: string, p: nat, x: string, t: string, n: nat)
    requires p < |s| && Reached(u, Email, s, p, x) && t == x + Sub(u, Email, s, p)
    requires MatchAt(u, Phone, t, |x|, |x| + n)
    ensures p + n <= |s| && |x| + n <= |t| && s[p..p + n] == t[|x|..|x| + n]
    ensures MatchAt(u, Phone, s, p, p + n)
  {
    StretchOf(u, Email, Phone, s, p, x, t, n);
    KeptNumber(u, Email, s, p, x, t, n);
    hide Sub, Core;
    if p > 0 && x[|x| - 1] != s[p - 1] {
      var i: nat :| i < p && MatchAt(u, Email, s, i, p);
      EmailEndsInLetter(u, s, i, p);
    } else if p > 0 {
      assert t[|x| - 1] == s[p - 1];
    }
  }

  // Replacing phone numbers leaves none in a stretch that was kept: one that starts right after a
  // replaced number starts with '+', and the scan would have found it without the '+'.
  lemma KeptStretchHasNoPhone(u: Unicode, s: string, p: nat, x: string, t: string, n: nat)
    requires p < |s| && Reached(u, Phone, s, p, x) && t == x + Sub(u, Phone, s, p)
    ensures !PhoneAt(u, t, |x|, |x| + n)
  {
    if PhoneAt(u, t, |x|, |x| + n) {
      KeptNumber(u, Phone, s, p, x, t, n);
      hide Sub, PhoneEnd;
      if p > 0 && x[|x| - 1] != s[p - 1] {
        var i: nat :| i < p && MatchAt(u, Phone, s, i, p);
        assert Digit(u, s[p - 1]) && s[p] == '+';
        assert MatchAt(u, Phone, s, p + 1, p + n);
        EndFinds(u, Phone, s, p + 1);
      } else {
        assert p > 0 ==> t[|x| - 1] == s[p - 1];
        assert MatchAt(u, Phone, s, p, p + n);
        EndFinds(u, Phone, s, p);
      }
    }
  }

  // ---- whole passes -----------------------------------------------------------------------------

  lemma ReachedNext(u: Unicode, pass: Pass, s: string, p: nat, x: string)
    requires p < |s| && Reached(u, pass, s, p, x)
    ensures match End(u, pass, s, p)
            case None => Reached(u, pass, s, p + 1, x + [s[p]])
            case Some(e) => p < e <= |s| && Reached(u, pass, s, e, x + Marker(pass))
  {
    SubStep(u, pass, s, p);
    MarkerChars(pass);
    hide MatchAt, End, Marker, Sub;
  }

  lemma NoMatchInMarker(u: Unicode, target: Pass, mark: Pass, x: string, rest: string, t: string)
    requires t == x + Marker(mark) + rest
    ensures |x + Marker(mark)| == |x| + 16
    ensures forall i: nat, j: nat | |x| <= i < |x| + 16 :: !MatchAt(u, target, t, i, j)
  {
    MarkerChars(mark);
    forall i: nat, j: nat | |x| <= i < |x| + 16
      ensures !MatchAt(u, target, t, i, j)
    {
      MarkerStartsNoMatch(u, target, mark, x, rest, i, j);
    }
  }

  lemma Regroup(x: string, y: string, z: string)
    ensures x + (y + z) == (x + y) + z
  {
  }

  // The scan goes on after one kept character or after a marker.
  lemma ScanStep(u: Unicode, pass: Pass, s: string, p: nat, x: string, t: string)
    requires p < |s| && Reached(u, pass, s, p, x) && t == x + Sub(u, pass, s, p)
    ensures match End(u, pass, s, p)
            case None => var x' := x + [s[p]]; Reached(u, pass, s, p + 1, x') && t == x' + Sub(u, pass, s, p + 1)
            case Some(e) =>
              var x' := x + Marker(pass);
              p < e <= |s| && Reached(u, pass, s, e, x') && t == x' + Sub(u, pass, s, e)
  {
    SubStep(u, pass, s, p);
    ReachedNext(u, pass, s, p, x);
    hide MatchAt, End, Marker, Sub, Reached;
    match End(u, pass, s, p)
    case None => Regroup(x, [s[p]], Sub(u, pass, s, p + 1));
    case Some(e) => Regroup(x, Marker(pass), Sub(u, pass, s, e));
  }

  lemma MatchIsNotEmpty(u: Unicode, pass: Pass, s: string, i: nat, j: nat)
    requires MatchAt(u, pass, s, i, j)
    ensures i < j <= |s|
  {
    MatchesAreMatchable(u, pass, s, i, j);
  }

  lemma ReachedInside(u: Unicode, pass: Pass, s: string, p: nat, x: string, t: string)
    requires Reached(u, pass, s, p, x) && t == x + Sub(u, pass, s, p)
    ensures p <= |s| && (p == |s| ==> |t| == |x|)
  {
  }

  // After a pass, no match starts anywhere in what the scan writes from p on.
  lemma {:induction false} NoMatchFrom(u: Unicode, pass: Pass, s: string, p: nat, x: string, t: string, i: nat, j: nat)
    requires Reached(u, pass, s, p, x) && t == x + Sub(u, pass, s, p)
    requires |x| <= i
    ensures !MatchAt(u, pass, t, i, j)
    decreases |s| - p
  {
    hide *;
    ReachedInside(u, pass, s, p, x, t);
    if MatchAt(u, pass, t, i, j) {
      MatchIsNotEmpty(u, pass, t, i, j);
      if p < |s| {
        ScanStep(u, pass, s, p, x, t);
        match End(u, pass, s, p)
        case Some(e) =>
          NoMatchInMarker(u, pass, pass, x, Sub(u, pass, s, e), t);
          NoMatchFrom(u, pass, s, e, x + Marker(pass), t, i, j);
        case None =>
          if i == |x| {
            KeptStretchHasNone(u, pass, s, p, x, t, j - i);
          } else {
            NoMatchFrom(u, pass, s, p + 1, x + [s[p]], t, i, j);
          }
      }
    }
  }

  lemma KeptStretchHasNone(u: Unicode, pass: Pass, s: string, p: nat, x: string, t: string, n: nat)
    requires p < |s| && Reached(u, pass, s, p, x) && t == x + Sub(u, pass, s, p)
    requires End(u, pass, s, p).None?
    ensures !MatchAt(u, pass, t, |x|, |x| + n)
  {
    match pass
    case Email => KeptStretchHasNoEmail(u, s, p, x, t, n);
    case Phone => KeptStretchHasNoPhone(u, s, p, x, t, n);
  }

  /** Each pass removes every match of its own expression. */
  lemma PassRemovesItsMatches(u: Unicode, pass: Pass, s: string)
    ensures Free(u, pass, Sub(u, pass, s, 0))
  {
    forall i: nat, j: nat
      ensures !MatchAt(u, pass, Sub(u, pass, s, 0), i, j)
    {
      assert "" + Sub(u, pass, s, 0) == Sub(u, pass, s, 0);
      NoMatchFrom(u, pass, s, 0, "", Sub(u, pass, s, 0), i, j);
    }
  }

  // The characters from i to j of t are those of a phone number of s.
  ghost predicate IsNumberOf(u: Unicode, s: string, t: string, i: nat, j: nat) {
    exists k: nat, l: nat | MatchAt(u, Phone, s, k, l) :: l <= |s| && i <= j <= |t| && k <= l && s[k..l] == t[i..j]
  }

  lemma NumberOfIs(u: Unicode, s: string, p: nat, t: string, i: nat, j: nat)
    requires i <= j <= |t| && p + (j - i) <= |s| && s[p..p + (j - i)] == t[i..j]
    requires MatchAt(u, Phone, s, p, p + (j - i))
    ensures IsNumberOf(u, s, t, i, j)
  {
    hide MatchAt;
  }

  // After the email pass, a phone number the scan writes from p on was one of the input.
  lemma {:induction false} PhoneFrom(u: Unicode, s: string, p: nat, x: string, t: string, i: nat, j: nat)
    requires Reached(u, Email, s, p, x) && t == x + Sub(u, Email, s, p)
    requires |x| <= i && MatchAt(u, Phone, t, i, j)
    ensures IsNumberOf(u, s, t, i, j)
    decreases |s| - p
  {
    hide *;
    ReachedInside(u, Email, s, p, x, t);
    MatchIsNotEmpty(u, Phone, t, i, j);
    if p < |s| {
      ScanStep(u, Email, s, p, x, t);
      match End(u, Email, s, p)
      case Some(e) =>
        NoMatchInMarker(u, Phone, Email, x, Sub(u, Email, s, e), t);
        PhoneFrom(u, s, e, x + Marker(Email), t, i, j);
      case None =>
        if i == |x| {
          KeptNumberWasPhone(u, s, p, x, t, j - i);
          NumberOfIs(u, s, p, t, i, j);
        } else {
          PhoneFrom(u, s, p + 1, x + [s[p]], t, i, j);
        }
    }
  }

  lemma NumbersSurvive(u: Unicode, s: string)
    ensures var t := Sub(u, Email, s, 0);
            forall i: nat, j: nat | MatchAt(u, Phone, t, i, j) :: IsNumberOf(u, s, t, i, j)
  {
    var t := Sub(u, Email, s, 0);
    hide Sub, MatchAt, IsNumberOf;
    forall i: nat, j: nat | MatchAt(u, Phone, t, i, j)
      ensures IsNumberOf(u, s, t, i, j)
    {
      assert "" + t == t;
      PhoneFrom(u, s, 0, "", t, i, j);
    }
  }

  /** The email pass introduces no phone number. */
  lemma EmailPassAddsNoPhone(u: Unicode, s: string)
    requires Free(u, Phone, s)
    ensures Free(u, Phone, Sub(u, Email, s, 0))
  {
    NumbersSurvive(u, s);
  }

  lemma {:induction false} NothingToReplace(u: Unicode, pass: Pass, s: string, p: nat)
    requires Free(u, pass, s) && p <= |s|
    ensures Sub(u, pass, s, p) == s[p..]
    decreases |s| - p
  {
    if p < |s| {
      SubStep(u, pass, s, p);
      NothingToReplace(u, pass, s, p + 1);
    }
  }

  // ---- redact_sensitive -------------------------------------------------------------------------

  /** One application always leaves a text free of phone numbers. */
  lemma RedactedIsPhoneFree(u: Unicode, text: string)
    ensures Free(u, Phone, Redact(u, text))
  {
    PassRemovesItsMatches(u, Phone, Sub(u, Email, text, 0));
  }

  /** Two applications leave neither kind of match, and a third changes nothing. */
  lemma TwiceRedactedIsClean(u: Unicode, text: string)
    ensures var twice := Redact(u, Redact(u, text));
            && Free(u, Email, twice) && Free(u, Phone, twice)
            && Redact(u, twice) == twice
  {
    var once := Redact(u, text);
    RedactedIsPhoneFree(u, text);
    var t := Sub(u, Email, once, 0);
    PassRemovesItsMatches(u, Email, once);
    EmailPassAddsNoPhone(u, once);
    NothingToReplace(u, Phone, t, 0);
    assert Redact(u, once) == t;
    CleanIsUnchanged(u, t);
  }

  lemma CleanIsUnchanged(u: Unicode, text: string)
    requires Free(u, Email, text) && Free(u, Phone, text)
    ensures Redact(u, text) == text
  {
    NothingToReplace(u, Email, text, 0);
    assert Sub(u, Email, text, 0) == text;
    NothingToReplace(u, Phone, text, 0);
  }

  /** Redaction leaves a text alone exactly when it holds neither an email address nor a phone number. */
  lemma UnchangedIffClean(u: Unicode, text: string)
    ensures Redact(u, text) == text <==> Free(u, Email, text) && Free(u, Phone, text)
  {
    if Redact(u, text) == text {
      TwiceRedactedIsClean(u, text);
    }
    if Free(u, Email, text) && Free(u, Phone, text) {
      CleanIsUnchanged(u, text);
    }
  }

  // ---- when one application is not enough -------------------------------------------------------

  // From position p the phone pass scans on to position q; a and b tell whether p and q are the ends of
  // replaced numbers.
  predicate Scans(u: Unicode, s: string, p: nat, a: bool, q: nat, b: bool)
    decreases |s| - p
  {
    if p >= q then p == q && a == b
    else if p >= |s| then false
    else
      EndFinds(u, Phone, s, p);
      match PhoneEnd(u, s, p)
      case Some(e) => Scans(u, s, e, true, q, b)
      case None => Scans(u, s, p + 1, false, q, b)
  }

  // An address up to its boundaries, kept by the phone pass, whose two edges are word boundaries once
  // the numbers next to it, if any, have become brackets.
  predicate Uncovered(u: Unicode, s: string, i: nat, j: nat, afterNumber: bool) {
    && Core(s, i, j)
    && Scans(u, s, 0, false, i, afterNumber)
    && (forall y | i <= y < j :: PhoneEnd(u, s, y).None?)
    && (if afterNumber then WordAt(u, s, i) else Boundary(u, s, i))
    && (PhoneEnd(u, s, j).Some? || Boundary(u, s, j))
  }

  predicate Exposed(u: Unicode, s: string) {
    exists i: nat, j: nat, b | i < j <= |s| :: Uncovered(u, s, i, j, b)
  }

  // What the scan has written when it stands at p.
  predicate Tail(s: string, p: nat, a: bool, x: string) {
    && p <= |s|
    && if p == 0 then !a && x == "" else x != "" && x[|x| - 1] == if a then ']' else s[p - 1]
  }

  lemma {:induction false} ScansOn(u: Unicode, s: string, p: nat, a: bool, q: nat, b: bool)
    requires Scans(u, s, p, a, q, b) && q < |s|
    ensures match PhoneEnd(u, s, q)
            case None => Scans(u, s, p, a, q + 1, false)
            case Some(e) => q < e && Scans(u, s, p, a, e, true)
    decreases |s| - p
  {
    EndFinds(u, Phone, s, p);
    if p < q {
      match PhoneEnd(u, s, p)
      case Some(e) => ScansOn(u, s, e, true, q, b);
      case None => ScansOn(u, s, p + 1, false, q, b);
    }
  }

  lemma TailNext(u: Unicode, s: string, p: nat, a: bool, x: string)
    requires p < |s| && Tail(s, p, a, x)
    ensures match PhoneEnd(u, s, p)
            case None => Tail(s, p + 1, false, x + [s[p]])
            case Some(e) => e <= |s| && Tail(s, e, true, x + PHONE_MARK)
  {
    EndFinds(u, Phone, s, p);
    MarkerChars(Phone);
    hide PhoneEnd;
  }

  lemma ScansTail(u: Unicode, s: string, p: nat, a: bool, q: nat, b: bool)
    requires Scans(u, s, p, a, q, b) && p < q
    ensures p < |s|
    ensures match PhoneEnd(u, s, p)
            case None => Scans(u, s, p + 1, false, q, b)
            case Some(e) => p < e <= |s| && Scans(u, s, e, true, q, b)
  {
    EndFinds(u, Phone, s, p);
  }

  lemma PhoneSubStep(u: Unicode, s: string, p: nat)
    requires p < |s|
    ensures match PhoneEnd(u, s, p)
            case None => Sub(u, Phone, s, p) == [s[p]] + Sub(u, Phone, s, p + 1)
            case Some(e) => p < e <= |s| && Sub(u, Phone, s, p) == PHONE_MARK + Sub(u, Phone, s, e)
  {
    SubStep(u, Phone, s, p);
  }

  // What the phone pass writes before position q, and what it writes from there.
  lemma {:induction false} Arrive(u: Unicode, s: string, p: nat, a: bool, q: nat, b: bool,
                                  x: string) returns (y: string)
    requires Scans(u, s, p, a, q, b) && Tail(s, p, a, x)
    ensures Tail(s, q, b, y) && x + Sub(u, Phone, s, p) == y + Sub(u, Phone, s, q)
    decreases |s| - p
  {
    y := x;
    if p < q {
      PhoneSubStep(u, s, p);
      TailNext(u, s, p, a, x);
      ScansTail(u, s, p, a, q, b);
      hide *;
      match PhoneEnd(u, s, p)
      case Some(e) =>
        Regroup(x, PHONE_MARK, Sub(u, Phone, s, e));
        y := Arrive(u, s, e, true, q, b, x + PHONE_MARK);
      case None =>
        Regroup(x, [s[p]], Sub(u, Phone, s, p + 1));
        y := Arrive(u, s, p + 1, false, q, b, x + [s[p]]);
    }
  }

  lemma {:induction false} KeptOut(u: Unicode, s: string, i: nat, j: nat)
    requires i <= j <= |s| && forall y | i <= y < j :: PhoneEnd(u, s, y).None?
    ensures Sub(u, Phone, s, i) == s[i..j] + Sub(u, Phone, s, j)
    decreases j - i
  {
    if i < j {
      SubStep(u, Phone, s, i);
      hide Sub, PhoneEnd, MatchAt, Marker;
      KeptOut(u, s, i + 1, j);
      ConsStretch(s, i, j, Sub(u, Phone, s, j));
    }
  }

  // The edges of a kept stretch, before and after the pass.
  lemma EdgesMatch(u: Unicode, s: string, i: nat, j: nat, b: bool, y: string, t: string)
    requires i < j <= |s| && Tail(s, i, b, y) && t == y + Sub(u, Phone, s, i)
    requires forall z | i <= z < j :: PhoneEnd(u, s, z).None?
    requires Letter(s[j - 1])
    ensures |y| + (j - i) <= |t| && t[|y|..|y| + (j - i)] == s[i..j]
    ensures Boundary(u, t, |y|) <==> if b then WordAt(u, s, i) else Boundary(u, s, i)
    ensures Boundary(u, t, |y| + (j - i)) <==> PhoneEnd(u, s, j).Some? || Boundary(u, s, j)
  {
    KeptOut(u, s, i, j);
    NextChar(u, Phone, s, j);
    hide Sub, PhoneEnd;
    var rest := Sub(u, Phone, s, j);
    assert t == y + s[i..j] + rest;
    assert t[|y|] == s[i] && t[|y| + (j - i) - 1] == s[j - 1];
  }

  lemma CoreEndsInLetter(s: string, i: nat, j: nat)
    requires Core(s, i, j)
    ensures i < j <= |s| && Letter(s[j - 1])
  {
    var k, d :| i < k < j && i < d < j && Shape(s, i, k, d, j);
    assert Letter(s[j - 1]);
  }

  lemma UncoveredIsMatched(u: Unicode, s: string, i: nat, j: nat, b: bool, y: string, t: string)
    requires i < j <= |s| && Uncovered(u, s, i, j, b) && Tail(s, i, b, y) && t == y + Sub(u, Phone, s, i)
    ensures MatchAt(u, Email, t, |y|, |y| + (j - i))
  {
    CoreEndsInLetter(s, i, j);
    hide Core, Sub, PhoneEnd, Scans, Boundary, Tail;
    EdgesMatch(u, s, i, j, b, y, t);
    CoreMoves(s, i, t, |y|, j - i);
  }

  lemma ExposedLeavesEmail(u: Unicode, s: string)
    requires Exposed(u, s)
    ensures !Free(u, Email, Sub(u, Phone, s, 0))
  {
    hide Sub, MatchAt;
    var i: nat, j: nat, b :| i < j <= |s| && Uncovered(u, s, i, j, b);
    var y := Arrive(u, s, 0, false, i, b, "");
    var t := y + Sub(u, Phone, s, i);
    assert t == Sub(u, Phone, s, 0);
    UncoveredIsMatched(u, s, i, j, b, y, t);
  }

  lemma {:induction false} EmailComesFromExposed(u: Unicode, s: string, p: nat, a: bool, x: string, t: string,
                                                 i: nat, j: nat)
    requires Scans(u, s, 0, false, p, a) && Tail(s, p, a, x) && t == x + Sub(u, Phone, s, p)
    requires |x| <= i && MatchAt(u, Email, t, i, j)
    ensures Exposed(u, s)
    decreases |s| - p
  {
    assert p <= |s| && (p == |s| ==> |t| == |x|);
    assert Marker(Phone) == PHONE_MARK;
    hide *;
    MatchIsNotEmpty(u, Email, t, i, j);
    if p < |s| {
      PhoneScanStep(u, s, p, a, x, t);
      match PhoneEnd(u, s, p)
      case Some(e) =>
        NoMatchInMarker(u, Email, Phone, x, Sub(u, Phone, s, e), t);
        EmailComesFromExposed(u, s, e, true, x + PHONE_MARK, t, i, j);
      case None =>
        if i > |x| {
          EmailComesFromExposed(u, s, p + 1, false, x + [s[p]], t, i, j);
        } else {
          KeptEmailIsUncovered(u, s, p, a, x, t, j - i);
        }
    }
  }

  lemma PhoneScanStep(u: Unicode, s: string, p: nat, a: bool, x: string, t: string)
    requires p < |s| && Scans(u, s, 0, false, p, a) && Tail(s, p, a, x) && t == x + Sub(u, Phone, s, p)
    ensures match PhoneEnd(u, s, p)
            case None =>
              var x' := x + [s[p]];
              Scans(u, s, 0, false, p + 1, false) && Tail(s, p + 1, false, x') && t == x' + Sub(u, Phone, s, p + 1)
            case Some(e) =>
              var x' := x + PHONE_MARK;
              && p < e <= |s| && Scans(u, s, 0, false, e, true) && Tail(s, e, true, x')
              && t == x' + Sub(u, Phone, s, e)
  {
    ScansOn(u, s, 0, false, p, a);
    TailNext(u, s, p, a, x);
    SubStep(u, Phone, s, p);
    assert Marker(Phone) == PHONE_MARK;
    hide Sub, Scans, Tail, PhoneEnd, MatchAt, Marker;
    match PhoneEnd(u, s, p)
    case None => Regroup(x, [s[p]], Sub(u, Phone, s, p + 1));
    case Some(e) => Regroup(x, PHONE_MARK, Sub(u, Phone, s, e));
  }

  lemma KeptEmailIsUncovered(u: Unicode, s: string, p: nat, a: bool, x: string, t: string, n: nat)
    requires p < |s| && Scans(u, s, 0, false, p, a) && Tail(s, p, a, x) && t == x + Sub(u, Phone, s, p)
    requires MatchAt(u, Email, t, |x|, |x| + n)
    ensures Exposed(u, s)
  {
    StretchOf(u, Phone, Email, s, p, x, t, n);
    CoreMoves(t, |x|, s, p, n);
    CoreEndsInLetter(s, p, p + n);
    assert forall z | p <= z < p + n :: End(u, Phone, s, z) == PhoneEnd(u, s, z);
    hide Core, Sub, PhoneEnd, Scans;
    EdgesMatch(u, s, p, p + n, a, x, t);
    assert Uncovered(u, s, p, p + n, a);
  }

  /** After one application no email address is left exactly when, in the text the email pass has
      produced, no address that lacked a word boundary touches a number the phone pass replaces. */
  lemma OnceIsEnoughIff(u: Unicode, text: string)
    ensures Free(u, Email, Redact(u, text)) <==> !Exposed(u, Sub(u, Email, text, 0))
  {
    var s := Sub(u, Email, text, 0);
    var t := Sub(u, Phone, s, 0);
    if Exposed(u, s) {
      ExposedLeavesEmail(u, s);
    }
    if !Free(u, Email, t) {
      var i: nat, j: nat :| MatchAt(u, Email, t, i, j);
      assert "" + t == t;
      EmailComesFromExposed(u, s, 0, false, "", t, i, j);
    }
  }

  /** In particular one application is enough for a prompt that holds no phone number. */
  lemma OnceIsEnoughWithoutNumbers(u: Unicode, text: string)
    requires Free(u, Phone, text)
    ensures Free(u, Email, Redact(u, text))
  {
    var s := Sub(u, Email, text, 0);
    EmailPassAddsNoPhone(u, text);
    NothingToReplace(u, Phone, s, 0);
    PassRemovesItsMatches(u, Email, text);
    hide Free;
    assert Redact(u, text) == s;
  }

  const SLIP: string := "a@b.co123456789"

  lemma SlipShape(i: nat, k: nat, d: nat, j: nat)
    requires Shape(SLIP, i, k, d, j)
    ensures k == 1 && d == 3 && j == 6
  {
    assert SLIP[k] == '@' && SLIP[d] == '.';
    assert j > 6 ==> Letter(SLIP[6]);
  }

  lemma SlipHasNoEmail(u: Unicode)
    ensures Free(u, Email, SLIP)
  {
    forall i: nat, j: nat
      ensures !MatchAt(u, Email, SLIP, i, j)
    {
      if Core(SLIP, i, j) {
        var k, d :| i < k < j && i < d < j && Shape(SLIP, i, k, d, j);
        SlipShape(i, k, d, j);
        hide Core, Shape;
        assert WordAt(u, SLIP, 5) && WordAt(u, SLIP, 6);
      }
    }
  }

  lemma SlipHasNumber(u: Unicode)
    ensures PhoneEnd(u, SLIP, 6).Some? && forall y | 0 <= y < 6 :: PhoneEnd(u, SLIP, y).None?
  {
    assert forall y :: 0 <= y < 6 ==> !DigitAt(u, SLIP, y) && SLIP[y] != '+';
    assert forall y :: 6 <= y < 15 ==> Digit(u, SLIP[y]);
    assert PhoneAt(u, SLIP, 6, 15);
    PhoneEndFinds(u, SLIP, 6);
  }

  lemma SlipIsUncovered(u: Unicode)
    ensures Uncovered(u, SLIP, 0, 6, false)
  {
    SlipHasNumber(u);
    hide PhoneEnd;
    assert Shape(SLIP, 0, 1, 3, 6);
  }

  /** "a@b.co123456789" is one text that a single application leaves an address in. */
  lemma OnceIsNotEnough(u: Unicode)
    ensures !Free(u, Email, Redact(u, SLIP))
  {
    SlipHasNoEmail(u);
    NothingToReplace(u, Email, SLIP, 0);
    SlipIsUncovered(u);
    OnceIsEnoughIff(u, SLIP);
    hide Sub, Uncovered;
    assert |SLIP| == 15 && SLIP[0..] == SLIP;
  }
}
