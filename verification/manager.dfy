/**
 * The LLM manager: backends built from the configured providers, a
 * round-robin balancer that picks one per request, and the tagging of each
 * response with the backend that served it. The backend call itself is a
 * parameter.
 */
module LlmManager {
  import opened Wrappers
  import opened PromptTypes
  import opened LlmTypes

  /** config.BackendProvider */
  datatype BackendProvider = BackendProvider(
    name: string,
    kind: string,
    config: map<string, Value>,
    url: string,
    model: string,
    apiKey: string)

  datatype BackendKind = OpenAI | VLLM

  /** A backend keeps its provider's name, URL, key and model; the HTTP timeout differs by kind. */
  datatype Backend = Backend(kind: BackendKind, name: string, baseURL: string, apiKey: string, model: string, timeoutSeconds: nat)

  /** createBackend: "openai" and "vllm" are the only backend types. */
  function CreateBackend(p: BackendProvider): (r: Result<Backend, string>)
    ensures r.Success? <==> p.kind == "openai" || p.kind == "vllm"
    ensures r.Failure? ==> r.error == "unsupported backend type: " + p.kind
    ensures r.Success? ==>
      && r.value.name == p.name && r.value.baseURL == p.url && r.value.apiKey == p.apiKey && r.value.model == p.model
      && (r.value.kind == OpenAI <==> p.kind == "openai")
  {
    if p.kind == "openai" then Success(Backend(OpenAI, p.name, p.url, p.apiKey, p.model, 30))
    else if p.kind == "vllm" then Success(Backend(VLLM, p.name, p.url, p.apiKey, p.model, 60))
    else Failure("unsupported backend type: " + p.kind)
  }

  // ---------------------------------------------------------------------------
  // Round robin
  // ---------------------------------------------------------------------------

  const NoBackends: string := "no available backends"

  datatype RoundRobin = RoundRobin(backends: seq<Backend>, current: nat)

  /** The position is 0 while there are no backends, and otherwise points at one. */
  predicate Valid(lb: RoundRobin) {
    if |lb.backends| == 0 then lb.current == 0 else lb.current < |lb.backends|
  }

  /** NewLoadBalancer: every strategy name, known or not, gives an empty round-robin balancer. */
  function NewLoadBalancer(strategy: string): (r: RoundRobin)
    ensures r.backends == [] && Valid(r)
  {
    RoundRobin([], 0)
  }

  /** The strategy name makes no difference. */
  lemma StrategyIgnored(a: string, b: string)
    ensures NewLoadBalancer(a) == NewLoadBalancer(b)
  {
  }

  /** AddBackend: appends, keeping the order and the position. */
  function AddBackend(lb: RoundRobin, b: Backend): (r: RoundRobin)
    ensures r.backends == lb.backends + [b] && r.current == lb.current
    ensures Valid(lb) ==> Valid(r)
  {
    lb.(backends := lb.backends + [b])
  }

  /**
   * SelectBackend: an error when there is no backend; otherwise the backend
   * at the position, which then moves on by one, wrapping around.
   */
  function SelectBackend(lb: RoundRobin): (r: (Result<Backend, string>, RoundRobin))
    requires Valid(lb)
    ensures r.0.Failure? <==> |lb.backends| == 0
    ensures r.0.Failure? ==> r.0.error == NoBackends && r.1 == lb
    ensures r.0.Success? ==> r.0.value == lb.backends[lb.current]
    ensures r.1.backends == lb.backends && Valid(r.1)
    ensures |lb.backends| > 0 ==> r.1.current == (lb.current + 1) % |lb.backends|
  {
    if |lb.backends| == 0 then (Failure(NoBackends), lb)
    else (Success(lb.backends[lb.current]), lb.(current := (lb.current + 1) % |lb.backends|))
  }

  /** The backends `n` successive selections return. */
  function Picks(lb: RoundRobin, n: nat): (r: seq<Backend>)
    requires Valid(lb) && |lb.backends| > 0
    ensures |r| == n
    decreases n
  {
    if n == 0 then []
    else
      var (b, next) := SelectBackend(lb);
      [b.value] + Picks(next, n - 1)
  }

  /** The i-th of n successive selections returns the backend i places after the position. */
  lemma {:induction false} PickAt(lb: RoundRobin, n: nat, i: nat)
    requires Valid(lb) && |lb.backends| > 0 && i < n
    ensures Picks(lb, n)[i] == lb.backends[(lb.current + i) % |lb.backends|]
    decreases n
  {
    var k := |lb.backends|;
    if i > 0 {
      var next := SelectBackend(lb).1;
      PickAt(next, n - 1, i - 1);
      ModAdd(lb.current + 1, i - 1, k);
    } else {
      ModUnique(lb.current, 0, lb.current, k);
    }
  }

  /** Successive selections cycle through the backends in insertion order. */
  lemma PicksCycle(lb: RoundRobin, n: nat)
    requires Valid(lb) && |lb.backends| > 0
    ensures forall i :: 0 <= i < n ==> Picks(lb, n)[i] == lb.backends[(lb.current + i) % |lb.backends|]
  {
    forall i | 0 <= i < n
      ensures Picks(lb, n)[i] == lb.backends[(lb.current + i) % |lb.backends|]
    {
      PickAt(lb, n, i);
    }
  }

  lemma {:induction false} MulAtLeast(a: int, b: int)
    requires a >= 1 && b > 0
    ensures a * b >= b
    decreases a
  {
    if a > 1 {
      MulAtLeast(a - 1, b);
      assert a * b == (a - 1) * b + b;
    }
  }

  /** The remainder is the unique r in [0, k) with x == q * k + r. */
  lemma ModUnique(x: int, q: int, r: int, k: int)
    requires k > 0 && 0 <= r < k && x == q * k + r
    ensures x % k == r
  {
    var q' := x / k;
    var r' := x % k;
    assert x == q' * k + r';
    if q > q' {
      MulAtLeast(q - q', k);
    } else if q < q' {
      MulAtLeast(q' - q, k);
    }
  }

  /** Reducing a summand modulo k first does not change the sum modulo k. */
  lemma ModAdd(x: nat, j: nat, k: nat)
    requires k > 0
    ensures (x % k + j) % k == (x + j) % k
  {
    var q := x / k;
    var r := x % k;
    var q2 := (r + j) / k;
    var r2 := (r + j) % k;
    assert x == q * k + r;
    assert r + j == q2 * k + r2;
    assert x + j == (q + q2) * k + r2;
    ModUnique(x + j, q + q2, r2, k);
  }

  /** The selection within the next round that returns the backend at position j. */
  lemma RoundIndex(lb: RoundRobin, j: nat) returns (i: nat)
    requires Valid(lb) && j < |lb.backends|
    ensures i < |lb.backends| && Picks(lb, |lb.backends|)[i] == lb.backends[j]
  {
    var k := |lb.backends|;
    if j >= lb.current {
      i := j - lb.current;
      ModUnique(lb.current + i, 0, j, k);
    } else {
      i := j + k - lb.current;
      ModUnique(lb.current + i, 1, j, k);
    }
    PickAt(lb, k, i);
  }

  /** Every backend is picked in any run of as many selections as there are backends. */
  lemma FairRound(lb: RoundRobin)
    requires Valid(lb) && |lb.backends| > 0
    ensures forall j :: 0 <= j < |lb.backends| ==> lb.backends[j] in Picks(lb, |lb.backends|)
  {
    forall j | 0 <= j < |lb.backends|
      ensures lb.backends[j] in Picks(lb, |lb.backends|)
    {
      var i := RoundIndex(lb, j);
    }
  }

  // ---------------------------------------------------------------------------
  // The manager
  // ---------------------------------------------------------------------------

  /** The registered backends by name, and the balancer. */
  datatype Manager = Manager(backends: map<string, Backend>, lb: RoundRobin)

  predicate ManagerValid(m: Manager) {
    Valid(m.lb) && (forall n :: n in m.backends ==> m.backends[n].name == n)
  }

  /** RegisterBackend: recorded under its name (replacing a namesake) and appended to the balancer. */
  function RegisterBackend(m: Manager, b: Backend): (r: Manager)
    ensures r.backends == m.backends[b.name := b]
    ensures r.lb == AddBackend(m.lb, b)
    ensures ManagerValid(m) ==> ManagerValid(r)
  {
    Manager(m.backends[b.name := b], AddBackend(m.lb, b))
  }

  /** The backends of the supported providers, in configuration order. */
  function Built(providers: seq<BackendProvider>): (r: seq<Backend>)
    ensures |r| <= |providers|
  {
    if |providers| == 0 then []
    else
      var earlier := Built(providers[..|providers| - 1]);
      match CreateBackend(providers[|providers| - 1])
      case Success(b) => earlier + [b]
      case Failure(_) => earlier
  }

  /** Registering the providers one by one; unsupported ones are skipped. */
  function RegisterAll(strategy: string, providers: seq<BackendProvider>): Manager
    decreases |providers|
  {
    if |providers| == 0 then Manager(map[], NewLoadBalancer(strategy))
    else
      var m := RegisterAll(strategy, providers[..|providers| - 1]);
      match CreateBackend(providers[|providers| - 1])
      case Success(b) => RegisterBackend(m, b)
      case Failure(_) => m
  }

  /**
   * NewManager: the balancer holds exactly the backends of the supported
   * providers, in order, starting at the first; the name map holds the same
   * backends, the last of each name winning.
   */
  function NewManager(strategy: string, providers: seq<BackendProvider>): (r: Manager)
    ensures ManagerValid(r)
    ensures r.lb.backends == Built(providers) && r.lb.current == 0
    ensures forall n :: n in r.backends ==> r.backends[n] in Built(providers)
  {
    NewManagerFacts(strategy, providers);
    RegisterAll(strategy, providers)
  }

  lemma {:induction false} NewManagerFacts(strategy: string, providers: seq<BackendProvider>)
    ensures ManagerValid(RegisterAll(strategy, providers))
    ensures RegisterAll(strategy, providers).lb.backends == Built(providers)
    ensures RegisterAll(strategy, providers).lb.current == 0
    ensures forall n :: n in RegisterAll(strategy, providers).backends ==>
      RegisterAll(strategy, providers).backends[n] in Built(providers)
    decreases |providers|
  {
    if |providers| > 0 {
      NewManagerFacts(strategy, providers[..|providers| - 1]);
    }
  }

  /** An unsupported provider contributes nothing: the balancer only ever sees openai and vllm backends. */
  lemma {:induction false} BuiltFromSupported(providers: seq<BackendProvider>)
    ensures forall b :: b in Built(providers) ==>
      exists i :: 0 <= i < |providers| && CreateBackend(providers[i]) == Success(b)
    decreases |providers|
  {
    if |providers| > 0 {
      var n := |providers| - 1;
      var prefix := providers[..n];
      BuiltFromSupported(prefix);
      forall b | b in Built(providers)
        ensures exists i :: 0 <= i < |providers| && CreateBackend(providers[i]) == Success(b)
      {
        if b in Built(prefix) {
          var i :| 0 <= i < |prefix| && CreateBackend(prefix[i]) == Success(b);
          assert providers[i] == prefix[i];
        } else {
          assert CreateBackend(providers[n]) == Success(b);
        }
      }
    }
  }

  /** The backend call, a parameter: the HTTP exchange is not part of this model. */
  type BackendCall = (Backend, LLMRequest) -> Result<LLMResponse, string>

  /**
   * Manager.Process: selects a backend (the balancer moves on whether or not
   * the call then succeeds), calls it, and on success tags the response's
   * metadata "backend" with that backend's name.
   */
  function Process(m: Manager, req: LLMRequest, call: BackendCall): (r: (Result<LLMResponse, string>, Manager))
    requires Valid(m.lb)
    ensures r.1.backends == m.backends && r.1.lb == SelectBackend(m.lb).1
    ensures |m.lb.backends| == 0 ==> r.0 == Failure("failed to select backend: " + NoBackends)
    ensures |m.lb.backends| > 0 ==>
      var b := m.lb.backends[m.lb.current];
      && (call(b, req).Failure? ==> r.0 == Failure("backend process failed: " + call(b, req).error))
      && (call(b, req).Success? ==>
        && r.0.Success?
        && r.0.value.metadata == call(b, req).value.metadata["backend" := VStr(b.name)]
        && r.0.value.(metadata := call(b, req).value.metadata) == call(b, req).value)
  {
    var (selected, lb) := SelectBackend(m.lb);
    var m1 := m.(lb := lb);
    match selected
    case Failure(err) =>
      (Failure("failed to select backend: " + err), m1)
    case Success(b) =>
      match call(b, req)
      case Failure(err) => (Failure("backend process failed: " + err), m1)
      case Success(resp) => (Success(resp.(metadata := resp.metadata["backend" := VStr(b.name)])), m1)
  }

  /** Requests are served by the backends in turn, whatever each call's outcome. */
  lemma ProcessRotates(m: Manager, req1: LLMRequest, req2: LLMRequest, call: BackendCall)
    requires Valid(m.lb) && |m.lb.backends| > 0
    ensures var m1 := Process(m, req1, call).1;
      Valid(m1.lb) && m1.lb.backends[m1.lb.current] == m.lb.backends[(m.lb.current + 1) % |m.lb.backends|]
  {
  }
}
