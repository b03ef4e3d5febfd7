/** The retry loop of `send_request` (grab_sage_entity.py): up to three POSTs
    of the same payload, stopping at the first that gets a response. The
    network is an input: the outcome of each attempt in order. */
module Transport {
  import opened Base
  import opened Xml

  /** The outcome of one POST: the connection broke (`ConnectionError`, which
      the loop catches), or a response came back, given here as its parsed
      body. */
  datatype Attempt = Refused | Answered(response: Node)

  /** `num_tries` starts at 3. */
  const MaxTries: nat := 3

  /** The outcome of attempt `k` (from 0). Attempts past the given outcomes
      are taken to be refused. */
  function Outcome(outcomes: seq<Attempt>, k: nat): Attempt {
    if k < |outcomes| then outcomes[k] else Refused
  }

  /** How many attempts the loop makes once attempt `k` is about to run. */
  function TriesFrom(outcomes: seq<Attempt>, k: nat): (n: nat)
    requires k < MaxTries
    ensures k < n <= MaxTries
    ensures forall j :: k <= j < n - 1 ==> Outcome(outcomes, j).Refused?
    ensures Outcome(outcomes, n - 1).Answered? || n == MaxTries
    decreases MaxTries - k
  {
    if Outcome(outcomes, k).Answered? || k == MaxTries - 1 then k + 1
    else TriesFrom(outcomes, k + 1)
  }

  /** The number of POSTs `send_request` makes: up to and including the first
      answered one, and at most three. */
  function Tries(outcomes: seq<Attempt>): (n: nat)
    ensures 1 <= n <= MaxTries
    ensures forall j :: 0 <= j < n - 1 ==> Outcome(outcomes, j).Refused?
    ensures Outcome(outcomes, n - 1).Answered? || n == MaxTries
  {
    TriesFrom(outcomes, 0)
  }

  /** What `send_request` returns: the response of the last attempt made, or
      `None` when that one was refused too. */
  function TransportResult(outcomes: seq<Attempt>): (r: Option<Node>)
    ensures r.Some? ==> Outcome(outcomes, Tries(outcomes) - 1) == Answered(r.value)
    ensures r.None? ==> Tries(outcomes) == MaxTries
  {
    match Outcome(outcomes, Tries(outcomes) - 1)
    case Answered(resp) => Some(resp)
    case Refused => None
  }

  /** `send_request`: decrements the counter before every attempt, leaves the
      loop on the first response and gives up when a refusal finds the counter
      at zero. */
  method SendRequest(outcomes: seq<Attempt>) returns (r: Option<Node>, attempts: nat)
    ensures attempts == Tries(outcomes)
    ensures r == TransportResult(outcomes)
  {
    var numTries := MaxTries;
    attempts := 0;
    while true
      invariant 1 <= numTries && attempts + numTries == MaxTries
      invariant forall j :: 0 <= j < attempts ==> Outcome(outcomes, j).Refused?
      decreases numTries
    {
      numTries := numTries - 1;
      var o := Outcome(outcomes, attempts);
      attempts := attempts + 1;
      match o {
        case Answered(resp) =>
          TriesAt(outcomes, attempts - 1);
          return Some(resp), attempts;
        case Refused =>
          if numTries == 0 {
            TriesAt(outcomes, attempts - 1);
            return None, attempts;
          }
      }
    }
  }

  /** The number of attempts is determined by where the run of refusals ends. */
  lemma {:induction false} TriesAt(outcomes: seq<Attempt>, k: nat)
    requires k < MaxTries
    requires forall j :: 0 <= j < k ==> Outcome(outcomes, j).Refused?
    requires Outcome(outcomes, k).Answered? || k == MaxTries - 1
    ensures Tries(outcomes) == k + 1
  {
  }

  /** A response comes back exactly when one of the first three attempts is
      answered, and then it is the first answered attempt's. */
  lemma {:induction false} AnsweredWithinThree(outcomes: seq<Attempt>)
    ensures TransportResult(outcomes).Some?
        <==> exists j :: 0 <= j < MaxTries && Outcome(outcomes, j).Answered?
    ensures forall j :: 0 <= j < MaxTries && Outcome(outcomes, j).Answered?
                    && (forall i :: 0 <= i < j ==> Outcome(outcomes, i).Refused?)
               ==> TransportResult(outcomes) == Some(Outcome(outcomes, j).response)
                   && Tries(outcomes) == j + 1
  {
    var n := Tries(outcomes);
    forall j | 0 <= j < MaxTries && Outcome(outcomes, j).Answered?
                && (forall i :: 0 <= i < j ==> Outcome(outcomes, i).Refused?)
      ensures TransportResult(outcomes) == Some(Outcome(outcomes, j).response) && Tries(outcomes) == j + 1
    {
      TriesAt(outcomes, j);
    }
    if TransportResult(outcomes).None? {
      assert n == MaxTries;
      forall j | 0 <= j < MaxTries ensures Outcome(outcomes, j).Refused? {
        if j < n - 1 {
        } else {
          assert j == n - 1;
        }
      }
    }
  }

  /** Three refused connections in a row: three attempts and no response. */
  lemma {:induction false} ThreeRefusals(outcomes: seq<Attempt>)
    requires Outcome(outcomes, 0).Refused? && Outcome(outcomes, 1).Refused? && Outcome(outcomes, 2).Refused?
    ensures Tries(outcomes) == 3 && TransportResult(outcomes) == None
  {
    TriesAt(outcomes, 2);
  }
}
