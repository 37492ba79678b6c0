/** `RpcTransport.call`: POST until something other than a retryable failure comes back, sleeping twice as long each time. */
module Transport {

  /** What one POST ends in, as far as the retry loop can tell. */
  datatype PostResult =
    | Answer(result: int)             // a JSON-RPC result
    | HttpError                       // httpx.HTTPError
    | RpcError(retryable: bool)       // RpcError
    | InvalidNonceError               // a NearError that is not an RpcError, whatever its own `retryable` says
    | OtherNearError

  datatype CallResult = Returned(result: int) | Raised(error: PostResult)

  predicate TriesAgain(r: PostResult) {
    r.HttpError? || (r.RpcError? && r.retryable)
  }

  function Pow2(n: nat): nat {
    if n == 0 then 1 else 2 * Pow2(n - 1)
  }

  /** The i-th POST would end in results[i]. */
  method Call(retries: nat, initialDelay: real, results: seq<PostResult>)
    returns (outcome: CallResult, posts: nat, slept: real)
    requires |results| > retries && initialDelay >= 0.0
    ensures 1 <= posts <= retries + 1
    ensures forall i :: 0 <= i < posts - 1 ==> TriesAgain(results[i])
    ensures posts <= retries ==> !TriesAgain(results[posts - 1])
    ensures outcome == match results[posts - 1]
                       case Answer(result) => Returned(result)
                       case HttpError => Raised(RpcError(true))
                       case error => Raised(error)
    ensures slept == initialDelay * (Pow2(posts - 1) - 1) as real
  {
    slept := 0.0;
    var lastError := RpcError(true);
    var attempt := 0;
    while attempt <= retries
      invariant 0 <= attempt <= retries + 1
      invariant forall i :: 0 <= i < attempt ==> TriesAgain(results[i])
      invariant slept == if attempt == 0 then 0.0 else initialDelay * (Pow2(attempt - 1) - 1) as real
      invariant attempt > 0 ==> lastError == if results[attempt - 1].HttpError? then RpcError(true) else results[attempt - 1]
    {
      if attempt > 0 {
        slept := slept + initialDelay * Pow2(attempt - 1) as real;
      }
      match results[attempt] {
        case Answer(result) =>
          return Returned(result), attempt + 1, slept;
        case HttpError =>
          lastError := RpcError(true);
        case RpcError(retryable) =>
          if !retryable {
            return Raised(results[attempt]), attempt + 1, slept;
          }
          lastError := results[attempt];
        case error =>
          return Raised(error), attempt + 1, slept;
      }
      attempt := attempt + 1;
    }
    outcome, posts := Raised(lastError), retries + 1;
  }

  lemma {:induction false} Pow2Monotone(m: nat, n: nat)
    requires m <= n
    ensures Pow2(m) <= Pow2(n)
    decreases n
  {
    if m < n {
      Pow2Monotone(m, n - 1);
    }
  }

  /** However the POSTs end, a call sleeps no longer than all its retries would. */
  method CallBounded(retries: nat, initialDelay: real, results: seq<PostResult>)
    returns (outcome: CallResult, slept: real)
    requires |results| > retries && initialDelay >= 0.0
    ensures slept <= initialDelay * (Pow2(retries) - 1) as real
    ensures outcome == Raised(InvalidNonceError) ==> exists i :: 0 <= i <= retries && results[i] == InvalidNonceError
                                                       && forall j :: 0 <= j < i ==> TriesAgain(results[j])
  {
    var posts;
    outcome, posts, slept := Call(retries, initialDelay, results);
    Pow2Monotone(posts - 1, retries);
  }
}
