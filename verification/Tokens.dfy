/** Token identities (src/persistence/tokens.ts:25-35): the ids of branch tokens and the pattern that takes them
    apart. */
module Tokens {
  import opened Prelude

  datatype Parsed = Root | Branch(splitId: string, activation: nat, branchFlowId: string) | Unknown

  // ---- Decimal numbers -------------------------------------------------------------------------

  predicate IsDigit(c: char) {
    '0' <= c <= '9'
  }

  function DigitOf(d: nat): char
    requires d < 10
  {
    "0123456789"[d]
  }

  function Decimal(n: nat): string {
    if n < 10 then [DigitOf(n)] else Decimal(n / 10) + [DigitOf(n % 10)]
  }

  function Value(s: string): nat {
    if s == [] then 0
    else 10 * Value(s[..|s| - 1]) + if IsDigit(s[|s| - 1]) then (s[|s| - 1] - '0') as nat else 0
  }

  lemma {:induction false} DecimalRoundTrip(n: nat)
    ensures Decimal(n) != [] && (forall c <- Decimal(n) :: IsDigit(c)) && Value(Decimal(n)) == n
  {
    if n >= 10 {
      DecimalRoundTrip(n / 10);
      var d := DigitOf(n % 10);
      assert Decimal(n)[..|Decimal(n)| - 1] == Decimal(n / 10);
      assert (d - '0') as nat == n % 10;
    } else {
      assert Decimal(n)[..0] == [];
    }
  }

  // ---- Ids -------------------------------------------------------------------------------------

  function RootTokenId(instanceId: string): string {
    instanceId + ":#root"
  }

  function BranchTokenId(instanceId: string, splitId: string, activation: nat, branchFlowId: string): string {
    instanceId + ":" + splitId + "#" + Decimal(activation) + ":" + branchFlowId
  }

  /** The characters `.` stands for in the pattern. */
  predicate Dot(c: char) {
    c != '\n' && c != '\r' && c != '\U{2028}' && c != '\U{2029}'
  }

  predicate AllDots(s: string) {
    forall c <- s :: Dot(c)
  }

  /** The part after the first colon, or everything if there is none. */
  function AfterColon(s: string): string {
    AfterColonOr(s, s)
  }

  function AfterColonOr(s: string, all: string): string {
    if s == [] then all else if s[0] == ':' then s[1..] else AfterColonOr(s[1..], all)
  }

  function DigitRun(s: string): nat
    ensures DigitRun(s) <= |s|
  {
    if s == [] || !IsDigit(s[0]) then 0 else 1 + DigitRun(s[1..])
  }

  /** The pattern's tail at position `i`: a hash, digits, a colon and at least one more character. */
  function TailAt(rest: string, i: nat): Parsed {
    if i >= |rest| || rest[i] != '#' then Unknown
    else
      var n := DigitRun(rest[i + 1..]);
      var j := i + 1 + n;
      if n > 0 && j + 1 < |rest| && rest[j] == ':' && AllDots(rest[..i]) && AllDots(rest[j + 1..]) then
        Branch(rest[..i], Value(rest[i + 1..j]), rest[j + 1..])
      else Unknown
  }

  /** The first group is greedy: the last position at or before `i`, but not 0, where the tail matches. */
  function LastMatch(rest: string, i: nat): Parsed {
    if i == 0 then Unknown
    else if TailAt(rest, i).Branch? then TailAt(rest, i)
    else LastMatch(rest, i - 1)
  }

  function ParseTokenId(tokenId: string): Parsed {
    var rest := AfterColon(tokenId);
    if rest == "#root" then Root else LastMatch(rest, |rest|)
  }

  // ---- Round trip ------------------------------------------------------------------------------

  lemma {:induction false} AfterInstance(instanceId: string, tail: string, all: string)
    requires ':' !in instanceId
    ensures AfterColonOr(instanceId + ":" + tail, all) == tail
  {
    var s := instanceId + ":" + tail;
    if instanceId != [] {
      assert s[0] == instanceId[0] && s[1..] == instanceId[1..] + ":" + tail;
      AfterInstance(instanceId[1..], tail, all);
    } else {
      assert s[0] == ':' && s[1..] == tail;
    }
  }

  lemma {:induction false} DigitRunOf(digits: string, tail: string)
    requires (forall c <- digits :: IsDigit(c)) && (tail != [] ==> !IsDigit(tail[0]))
    ensures DigitRun(digits + tail) == |digits|
  {
    if digits != [] {
      assert (digits + tail)[0] == digits[0] && (digits + tail)[1..] == digits[1..] + tail;
      DigitRunOf(digits[1..], tail);
    } else {
      assert digits + tail == tail;
    }
  }

  /** What follows the instance id of a branch token. */
  function Rest(splitId: string, activation: nat, branchFlowId: string): string {
    splitId + "#" + Decimal(activation) + ":" + branchFlowId
  }

  /** The pattern's tail matches right after the split id. */
  lemma TailAtSplit(splitId: string, activation: nat, branchFlowId: string)
    requires branchFlowId != [] && AllDots(splitId) && AllDots(branchFlowId)
    ensures TailAt(Rest(splitId, activation, branchFlowId), |splitId|) == Branch(splitId, activation, branchFlowId)
  {
    var rest := Rest(splitId, activation, branchFlowId);
    var digits := Decimal(activation);
    DecimalRoundTrip(activation);
    assert rest[|splitId|] == '#' && rest[..|splitId|] == splitId;
    assert rest[|splitId| + 1..] == digits + (":" + branchFlowId);
    DigitRunOf(digits, ":" + branchFlowId);
    var j := |splitId| + 1 + |digits|;
    assert rest[j] == ':' && rest[j + 1..] == branchFlowId && rest[|splitId| + 1..j] == digits;
  }

  /** The characters behind the split id's hash: digits, one colon, then the flow id. */
  lemma RestAt(splitId: string, activation: nat, branchFlowId: string, k: nat)
    requires |splitId| < k < |Rest(splitId, activation, branchFlowId)|
    ensures var colon := |splitId| + 1 + |Decimal(activation)|; var c := Rest(splitId, activation, branchFlowId)[k];
            if k < colon then IsDigit(c)
            else if k == colon then c == ':'
            else k - colon - 1 < |branchFlowId| && c == branchFlowId[k - colon - 1]
  {
  }

  /** Further right there is no hash in the digits, and no colon in the flow id to end a match. */
  lemma NoTailBeyondSplit(splitId: string, activation: nat, branchFlowId: string, i: nat)
    requires ':' !in branchFlowId && i > |splitId|
    ensures TailAt(Rest(splitId, activation, branchFlowId), i) == Unknown
  {
    var rest := Rest(splitId, activation, branchFlowId);
    if i < |rest| {
      RestAt(splitId, activation, branchFlowId, i);
      var j := i + 1 + DigitRun(rest[i + 1..]);
      if j < |rest| { RestAt(splitId, activation, branchFlowId, j); }
    }
  }

  lemma {:induction false} LastMatchIs(rest: string, i: nat, k: nat)
    requires 0 < k <= i && TailAt(rest, k).Branch? && forall j :: k < j <= i ==> TailAt(rest, j) == Unknown
    ensures LastMatch(rest, i) == TailAt(rest, k)
  {
    if i > k { LastMatchIs(rest, i - 1, k); }
  }

  /** Parsing inverts the construction for every colon-free instance id and flow id. */
  lemma ParseInvertsBranch(instanceId: string, splitId: string, activation: nat, branchFlowId: string)
    requires ':' !in instanceId && ':' !in branchFlowId && splitId != [] && branchFlowId != []
    requires AllDots(splitId) && AllDots(branchFlowId)
    ensures ParseTokenId(BranchTokenId(instanceId, splitId, activation, branchFlowId)) ==
              Branch(splitId, activation, branchFlowId)
  {
    var rest := Rest(splitId, activation, branchFlowId);
    var id := BranchTokenId(instanceId, splitId, activation, branchFlowId);
    assert id == instanceId + ":" + rest;
    AfterInstance(instanceId, rest, id);
    TailAtSplit(splitId, activation, branchFlowId);
    forall i: nat | |splitId| < i <= |rest| ensures TailAt(rest, i) == Unknown {
      NoTailBeyondSplit(splitId, activation, branchFlowId, i);
    }
    LastMatchIs(rest, |rest|, |splitId|);
    assert rest != "#root" by { assert rest[|splitId| + 1 + |Decimal(activation)|] == ':' && ':' !in "#root"; }
  }

  lemma ParseInvertsRoot(instanceId: string)
    requires ':' !in instanceId
    ensures ParseTokenId(RootTokenId(instanceId)) == Root
  {
    assert RootTokenId(instanceId) == instanceId + ":" + "#root";
    AfterInstance(instanceId, "#root", RootTokenId(instanceId));
  }

  function BeforeColon(s: string): string {
    if s == [] || s[0] == ':' then [] else [s[0]] + BeforeColon(s[1..])
  }

  /** The instance id can be read off a token id as well. */
  lemma {:induction false} InstanceOf(instanceId: string, tail: string)
    requires ':' !in instanceId
    ensures BeforeColon(instanceId + ":" + tail) == instanceId
  {
    var s := instanceId + ":" + tail;
    if instanceId != [] {
      assert s[0] == instanceId[0] && s[1..] == instanceId[1..] + ":" + tail;
      InstanceOf(instanceId[1..], tail);
    }
  }

  /** Token ids are injective, also for the `mi#i` flows of multi-instance bodies, and no branch id is a root id. */
  lemma TokenIdsInjective(i: string, s: string, a: nat, f: string, j: string, s': string, a': nat, f': string)
    requires ':' !in i && ':' !in f && s != [] && f != [] && AllDots(s) && AllDots(f)
    requires ':' !in j && ':' !in f' && s' != [] && f' != [] && AllDots(s') && AllDots(f')
    ensures BranchTokenId(i, s, a, f) == BranchTokenId(j, s', a', f') <==> i == j && s == s' && a == a' && f == f'
    ensures BranchTokenId(i, s, a, f) != RootTokenId(j)
  {
    ParseInvertsBranch(i, s, a, f);
    ParseInvertsBranch(j, s', a', f');
    ParseInvertsRoot(j);
    if BranchTokenId(i, s, a, f) == BranchTokenId(j, s', a', f') {
      assert BranchTokenId(i, s, a, f) == i + ":" + Rest(s, a, f)
          && BranchTokenId(j, s', a', f') == j + ":" + Rest(s', a', f');
      InstanceOf(i, Rest(s, a, f));
      InstanceOf(j, Rest(s', a', f'));
    }
  }

  // ---- Flow ids with colons --------------------------------------------------------------------

  /** At `j` the flow id has a hash, digits, a colon and at least one more character. */
  predicate SplitsAt(flow: string, j: nat) {
    && j < |flow| && flow[j] == '#'
    && var n := DigitRun(flow[j + 1..]);
       n > 0 && j + n + 2 < |flow| && flow[j + 1 + n] == ':'
  }

  /** Behind the split id the pattern's tail matches exactly where the flow id itself can be split. */
  lemma TailInFlow(splitId: string, activation: nat, flow: string, i: nat)
    requires AllDots(splitId) && AllDots(flow) && i > |splitId|
    ensures var base := |splitId| + 2 + |Decimal(activation)|;
            TailAt(Rest(splitId, activation, flow), i).Branch? <==> i >= base && SplitsAt(flow, i - base)
  {
    var rest := Rest(splitId, activation, flow);
    var pre := splitId + "#" + Decimal(activation) + ":";
    assert rest == pre + flow;
    DecimalRoundTrip(activation);
    assert AllDots(pre);
    if i < |rest| { RestAt(splitId, activation, flow, i); }
    if |pre| <= i < |rest| {
      var j := i - |pre|;
      var n := DigitRun(flow[j + 1..]);
      assert rest[i + 1..] == flow[j + 1..];
      assert AllDots(rest[..i]) by { assert rest[..i] == pre + flow[..j]; }
      if j + n + 2 < |flow| { assert rest[i + 1 + n] == flow[j + 1 + n] && rest[i + 2 + n..] == flow[j + n + 2..]; }
    }
  }

  lemma TailSplit(rest: string, i: nat)
    ensures TailAt(rest, i).Branch? ==> |TailAt(rest, i).splitId| == i
  {
  }

  lemma {:induction false} LastMatchBeyond(rest: string, top: nat, k: nat)
    requires 0 < k <= top && TailAt(rest, k).Branch?
    ensures LastMatch(rest, top).Branch? && |LastMatch(rest, top).splitId| >= k
  {
    TailSplit(rest, top);
    if !TailAt(rest, top).Branch? { LastMatchBeyond(rest, top - 1, k); }
  }

  /** Parsing inverts the construction exactly if the flow id cannot be split by the pattern itself. */
  lemma ParseInvertsExactly(instanceId: string, splitId: string, activation: nat, flow: string)
    requires ':' !in instanceId && splitId != [] && flow != [] && AllDots(splitId) && AllDots(flow)
    ensures ParseTokenId(BranchTokenId(instanceId, splitId, activation, flow)) == Branch(splitId, activation, flow)
            <==> forall j: nat :: !SplitsAt(flow, j)
  {
    ParsedRest(instanceId, splitId, activation, flow);
    if j: nat :| SplitsAt(flow, j) {
      SplitFlowMatches(splitId, activation, flow, j);
    } else {
      WholeFlowMatches(splitId, activation, flow);
    }
  }

  /** Parsing a branch token id comes down to the last match behind its instance id. */
  lemma ParsedRest(instanceId: string, splitId: string, activation: nat, flow: string)
    requires ':' !in instanceId
    ensures ParseTokenId(BranchTokenId(instanceId, splitId, activation, flow)) ==
              LastMatch(Rest(splitId, activation, flow), |Rest(splitId, activation, flow)|)
  {
    var rest := Rest(splitId, activation, flow);
    var id := BranchTokenId(instanceId, splitId, activation, flow);
    assert id == instanceId + ":" + rest;
    AfterInstance(instanceId, rest, id);
    assert rest[|splitId| + 1 + |Decimal(activation)|] == ':' && ':' !in "#root";
  }

  lemma SplitFlowMatches(splitId: string, activation: nat, flow: string, j: nat)
    requires AllDots(splitId) && AllDots(flow) && SplitsAt(flow, j)
    ensures var rest := Rest(splitId, activation, flow);
            LastMatch(rest, |rest|).Branch? && |LastMatch(rest, |rest|).splitId| > |splitId|
  {
    var rest := Rest(splitId, activation, flow);
    var base := |splitId| + 2 + |Decimal(activation)|;
    TailInFlow(splitId, activation, flow, base + j);
    LastMatchBeyond(rest, |rest|, base + j);
  }

  lemma WholeFlowMatches(splitId: string, activation: nat, flow: string)
    requires splitId != [] && flow != [] && AllDots(splitId) && AllDots(flow) && forall j: nat :: !SplitsAt(flow, j)
    ensures var rest := Rest(splitId, activation, flow);
            LastMatch(rest, |rest|) == Branch(splitId, activation, flow)
  {
    var rest := Rest(splitId, activation, flow);
    TailAtSplit(splitId, activation, flow);
    forall i: nat | |splitId| < i <= |rest| ensures TailAt(rest, i) == Unknown {
      NoBranch(splitId, activation, flow, i);
    }
    LastMatchIs(rest, |rest|, |splitId|);
  }

  lemma NoBranch(splitId: string, activation: nat, flow: string, i: nat)
    requires AllDots(splitId) && AllDots(flow) && i > |splitId| && forall j: nat :: !SplitsAt(flow, j)
    ensures TailAt(Rest(splitId, activation, flow), i) == Unknown
  {
    TailInFlow(splitId, activation, flow, i);
  }

  /** So with a colon in the flow id the inverse can fail: the pattern matches inside the flow. */
  lemma ColonFlowParsedWrong()
    ensures ParseTokenId(BranchTokenId("i", "s", 0, "x#1:y")) == Branch("s#0:x", 1, "y")
  {
    var rest := Rest("s", 0, "x#1:y");
    assert BranchTokenId("i", "s", 0, "x#1:y") == "i" + ":" + rest;
    AfterInstance("i", rest, BranchTokenId("i", "s", 0, "x#1:y"));
    assert rest == "s#0:x#1:y" == Rest("s#0:x", 1, "y");
    TailAtSplit("s#0:x", 1, "y");
    forall i: nat | 5 < i <= |rest| ensures TailAt(rest, i) == Unknown { NoTailBeyondSplit("s#0:x", 1, "y", i); }
    LastMatchIs(rest, |rest|, 5);
  }
}
