/**
 How many tokens of a retained history a branch may reuse. The last generated token was never evaluated, so the
 boundary lies one token before the end of the parent's prompt and generation.
 */
module Reuse {
  import opened Wrappers
  import opened Json

  type Tokens = seq<int>

  datatype Boundary = Boundary(evaluated: Tokens, expected: int, observed: int, lcp: nat)

  function Lcp(left: Tokens, right: Tokens): (n: nat)
    ensures n <= |left| && n <= |right|
  {
    if left == [] || right == [] || left[0] != right[0] then 0 else 1 + Lcp(left[1..], right[1..])
  }

  /** The longest common prefix is common, and the next tokens, if both exist, differ. */
  lemma {:induction false} LcpIsLongest(left: Tokens, right: Tokens)
    ensures var n := Lcp(left, right);
            && left[..n] == right[..n]
            && (n < |left| && n < |right| ==> left[n] != right[n])
  {
    if left == [] || right == [] || left[0] != right[0] {
    } else {
      LcpIsLongest(left[1..], right[1..]);
      var n := Lcp(left, right);
      assert left[..n] == [left[0]] + left[1..][..n - 1];
      assert right[..n] == [right[0]] + right[1..][..n - 1];
    }
  }

  method LongestCommonPrefix(left: Tokens, right: Tokens) returns (count: nat)
    ensures count <= |left| && count <= |right|
    ensures left[..count] == right[..count]
    ensures count < |left| && count < |right| ==> left[count] != right[count]
    ensures count == Lcp(left, right)
  {
    count := 0;
    while count < |left| && count < |right|
      invariant count <= |left| && count <= |right|
      invariant left[..count] == right[..count]
      invariant Lcp(left, right) == count + Lcp(left[count..], right[count..])
    {
      if left[count] != right[count] {
        break;
      }
      count := count + 1;
    }
  }

  lemma LcpIsPrefix(left: Tokens, right: Tokens)
    ensures Lcp(left, right) == |left| <==> left <= right
  {
    LcpIsLongest(left, right);
    var n := Lcp(left, right);
    assert left <= right ==> forall k :: 0 <= k < |left| ==> left[k] == right[k];
    assert n == |left| ==> left[..n] == left;
  }

  // ---------- The two checks ----------

  /** The check on a llama.cpp parent, whose cached count is a decoded JSON value. */
  function CheckedLlamaReuse(cached: Value, observed: int, parent: Tokens, generated: Tokens, branch: Tokens)
    : Result<Boundary, string>
  {
    var expected := |parent| + |generated| - 1;
    if |generated| < 2 || |parent| == 0 then Err("plain_history_boundary_too_short")
    else if !Eq(cached, Int(expected)) then Err("cached_count_does_not_match_evaluated_boundary")
    else if !cached.Int? then Err("producer_error")
    else if cached.n <= |parent| || cached.n > |parent| + |generated| then Err("evaluated_boundary_invalid")
    else
      var evaluated := (parent + generated)[..cached.n];
      var lcp := Lcp(evaluated, branch);
      if |branch| <= |evaluated| || lcp != |evaluated| then Err("retained_history_is_not_full_branch_prefix")
      else if observed != |evaluated| then Err("reused_count_does_not_match_evaluated_boundary")
      else Ok(Boundary(evaluated, expected, observed, lcp))
  }

  /** The check on a signed receipt, whose two counts are integers already. */
  function CheckedReuse(cached: int, reused: int, parent: Tokens, generated: Tokens, branch: Tokens)
    : Result<Boundary, string>
  {
    var expected := |parent| + |generated| - 1;
    if |generated| < 2 || |parent| == 0 then Err("plain_history_boundary_too_short")
    else if cached != expected then Err("cached_count_does_not_match_evaluated_boundary")
    else if cached <= |parent| || cached > |parent| + |generated| then Err("evaluated_boundary_invalid")
    else
      var evaluated := (parent + generated)[..cached];
      var lcp := Lcp(evaluated, branch);
      if |branch| <= |evaluated| || lcp != |evaluated| then Err("retained_history_is_not_full_branch_prefix")
      else if reused != |evaluated| then Err("reused_count_does_not_match_evaluated_boundary")
      else Ok(Boundary(evaluated, expected, reused, lcp))
  }

  /** What acceptance means: one count everywhere, and the evaluated tokens a proper prefix of the branch prompt. */
  predicate Conserved(cached: int, observed: int, parent: Tokens, generated: Tokens, branch: Tokens) {
    && |parent| > 0 && |generated| >= 2
    && cached == observed == |parent| + |generated| - 1
    && (parent + generated)[..cached] < branch
  }

  /** The signed check accepts exactly the conserved inputs, and reports that one count. */
  lemma CheckedReuseExact(cached: int, reused: int, parent: Tokens, generated: Tokens, branch: Tokens)
    ensures var r := CheckedReuse(cached, reused, parent, generated, branch);
            && (r.Ok? <==> Conserved(cached, reused, parent, generated, branch))
            && (r.Ok? ==> r.value == Boundary((parent + generated)[..cached], cached, cached, cached))
  {
    if 0 <= cached <= |parent| + |generated| {
      LcpIsPrefix((parent + generated)[..cached], branch);
    }
  }

  /** Both checks accept the same counts and tokens with the same outcome, and llama.cpp must report a JSON integer. */
  lemma ChecksAgree(cached: Value, observed: int, parent: Tokens, generated: Tokens, branch: Tokens)
    ensures cached.Int? ==>
              CheckedLlamaReuse(cached, observed, parent, generated, branch)
              == CheckedReuse(cached.n, observed, parent, generated, branch)
    ensures !cached.Int? ==> CheckedLlamaReuse(cached, observed, parent, generated, branch).Err?
  {
    if cached.Int? {
      assert Eq(cached, Int(|parent| + |generated| - 1)) <==> cached.n as real == (|parent| + |generated| - 1) as real;
    }
  }
}
