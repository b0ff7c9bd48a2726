/**
 Ticket bodies as the queue stores them: Python dictionaries with a fixed
 vocabulary of keys (and any number of others), read with `dict.get`.
 */
module Tickets {

  datatype Option<+T> = None | Some(value: T)

  /** The stored status words; `Unlisted` stands for any other word. */
  datatype Status =
    | Triage | Approval | Akien | Sprint | Assigned | Dispatched | Acked | InProgress
    | AwaitingValidation | Escalated | Hold | Dependency | Pending
    | Design | OpenQuestions | NeedsReview | AwaitingApproval | Blocked | Discarded
    | Closed | Done | Cancelled
    | Unlisted(word: string)

  predicate IsTerminal(s: Status) {
    s.Closed? || s.Done? || s.Cancelled?
  }

  datatype Value =
    | Null
    | Text(text: string)
    | Stat(status: Status)
    | Flag(flag: bool)
    | Num(num: real)
    | Items(items: seq<string>)

  /** Python truthiness of a stored value. */
  predicate Truthy(v: Value) {
    match v
    case Null => false
    case Text(s) => s != ""
    case Stat(s) => s != Unlisted("")
    case Flag(b) => b
    case Num(n) => n != 0.0
    case Items(xs) => xs != []
  }

  datatype Key =
    | KeyId | KeyStatus | KeyWorker | KeyGate | KeyIntention | KeyResult | KeyDecisionId
    | KeyCompletedAt | KeyUpdatedAt | KeyDispatchedAt | KeyBlockedAt
    | KeyProven | KeyProofId | KeyProofCommit | KeyUnprovenReason | KeyFailReason
    | KeyAutoValidated | KeyTimeoutCount | KeySize | KeyDescription
    | KeyRole | KeyPriority | KeyRelatedTo | KeyGithubIssue | KeyRequiredFiles | KeyTargetDifficulty
    | KeyOther(name: string)

  type Body = map<Key, Value>

  /** A clock reading in ISO form: never the empty string. */
  type Stamp = s: string | s != "" witness "0"

  function Get(b: Body, k: Key): Value {
    if k in b then b[k] else Null
  }

  function IdOf(b: Body): Value {
    Get(b, KeyId)
  }

  predicate HasStatus(b: Body, s: Status) {
    Get(b, KeyStatus) == Stat(s)
  }

  predicate TerminalBody(b: Body) {
    var s := Get(b, KeyStatus);
    s.Stat? && IsTerminal(s.status)
  }

  /** Equality of bodies up to the `updated_at` stamp. */
  predicate EqIgnoringUpdatedAt(a: Body, b: Body) {
    a - {KeyUpdatedAt} == b - {KeyUpdatedAt}
  }

  lemma EqIgnoringAgree(a: Body, b: Body, k: Key)
    requires EqIgnoringUpdatedAt(a, b) && k != KeyUpdatedAt
    ensures Get(a, k) == Get(b, k) && (k in a <==> k in b)
  {
    assert k in a - {KeyUpdatedAt} <==> k in a;
    assert k in b - {KeyUpdatedAt} <==> k in b;
    if k in a {
      assert (a - {KeyUpdatedAt})[k] == (b - {KeyUpdatedAt})[k];
    }
  }

  /** Every key outside `keys` is as it was, present or absent. */
  ghost predicate SameBut(was: Body, now: Body, keys: set<Key>) {
    forall k :: k !in keys ==> (k in now <==> k in was) && Get(now, k) == Get(was, k)
  }

  /** What is known of a body is known of any body equal to it up to its time stamp. */
  lemma SameUpToStamp(was: Body, b: Body, stored: Body, keys: set<Key>)
    requires SameBut(was, b, keys) && EqIgnoringUpdatedAt(stored, b) && KeyUpdatedAt in keys
    ensures SameBut(was, stored, keys) && forall k :: k != KeyUpdatedAt ==> Get(stored, k) == Get(b, k)
  {
    forall k | k != KeyUpdatedAt ensures Get(stored, k) == Get(b, k) && (k in stored <==> k in b) {
      EqIgnoringAgree(stored, b, k);
    }
  }

  lemma SameButTwice(a: Body, b: Body, c: Body, first: set<Key>, second: set<Key>)
    requires SameBut(a, b, first) && SameBut(b, c, second)
    ensures SameBut(a, c, first + second)
  {
  }
}
