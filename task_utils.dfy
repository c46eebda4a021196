/** Conversion between the backend's and the wish form's spellings of a task's
    priority and status. Each converter is a fixed three-entry table. */
module TaskUtils {

  /** Priority as the backend stores it: 'HIGH' | 'NORMAL' | 'LOW'. */
  datatype BackendPriority = HIGH | NORMAL | LOW {
    function Label(): string {
      match this
      case HIGH => "HIGH"
      case NORMAL => "NORMAL"
      case LOW => "LOW"
    }
  }

  /** Priority as the form shows it: 'High' | 'Medium' | 'Low'. */
  datatype FrontendPriority = High | Medium | Low {
    function Label(): string {
      match this
      case High => "High"
      case Medium => "Medium"
      case Low => "Low"
    }
  }

  /** Status as the backend stores it: 'not started' | 'in progress' | 'completed'. */
  datatype BackendStatus = NOT_STARTED | IN_PROGRESS | COMPLETED {
    function Label(): string {
      match this
      case NOT_STARTED => "not started"
      case IN_PROGRESS => "in progress"
      case COMPLETED => "completed"
    }
  }

  /** Status as the form shows it: 'Not Started' | 'In Progress' | 'Completed'. */
  datatype FrontendStatus = NotStarted | InProgress | Completed {
    function Label(): string {
      match this
      case NotStarted => "Not Started"
      case InProgress => "In Progress"
      case Completed => "Completed"
    }
  }

  /** `convertPriorityToFrontend`: NORMAL is the one priority the form calls
      by another word; the other labels keep their length (they differ only
      in letter case, see `PriorityLabelsLowered`). */
  function PriorityToFrontend(p: BackendPriority): (q: FrontendPriority)
    ensures q == Medium <==> p == NORMAL
    ensures p != NORMAL ==> |q.Label()| == |p.Label()|
  {
    match p
    case HIGH => High
    case NORMAL => Medium
    case LOW => Low
  }

  /** `convertPriorityToBackend`: the frontend table reads it back. */
  function PriorityToBackend(q: FrontendPriority): (p: BackendPriority)
    ensures PriorityToFrontend(p) == q
  {
    match q
    case High => HIGH
    case Medium => NORMAL
    case Low => LOW
  }

  /** `convertStatusToFrontend`: a status label keeps its length (the two
      spellings differ only in letter case, see `StatusLabelLowered`). */
  function StatusToFrontend(s: BackendStatus): (t: FrontendStatus)
    ensures |t.Label()| == |s.Label()|
  {
    match s
    case NOT_STARTED => NotStarted
    case IN_PROGRESS => InProgress
    case COMPLETED => Completed
  }

  /** `convertStatusToBackend`: the frontend table reads it back. */
  function StatusToBackend(t: FrontendStatus): (s: BackendStatus)
    ensures StatusToFrontend(s) == t
  {
    match t
    case NotStarted => NOT_STARTED
    case InProgress => IN_PROGRESS
    case Completed => COMPLETED
  }

  lemma PriorityRoundTrips(p: BackendPriority, q: FrontendPriority)
    ensures PriorityToBackend(PriorityToFrontend(p)) == p
    ensures PriorityToFrontend(PriorityToBackend(q)) == q
  {
  }

  lemma StatusRoundTrips(s: BackendStatus, t: FrontendStatus)
    ensures StatusToBackend(StatusToFrontend(s)) == s
    ensures StatusToFrontend(StatusToBackend(t)) == t
  {
  }

  /** Each converter is one-to-one, and each reaches every value of its target
      (the other direction's table picks a preimage), so the four tables are
      bijections between three-element sets. */
  lemma ConvertersAreBijections()
    ensures forall a, b :: PriorityToFrontend(a) == PriorityToFrontend(b) ==> a == b
    ensures forall a, b :: PriorityToBackend(a) == PriorityToBackend(b) ==> a == b
    ensures forall a, b :: StatusToFrontend(a) == StatusToFrontend(b) ==> a == b
    ensures forall a, b :: StatusToBackend(a) == StatusToBackend(b) ==> a == b
    ensures forall q :: PriorityToFrontend(PriorityToBackend(q)) == q
    ensures forall t :: StatusToFrontend(StatusToBackend(t)) == t
  {
    forall q: FrontendPriority ensures PriorityToFrontend(PriorityToBackend(q)) == q {
      PriorityRoundTrips(HIGH, q);
    }
    forall p: BackendPriority ensures PriorityToBackend(PriorityToFrontend(p)) == p {
      PriorityRoundTrips(p, High);
    }
    forall t: FrontendStatus ensures StatusToFrontend(StatusToBackend(t)) == t {
      StatusRoundTrips(NOT_STARTED, t);
    }
    forall s: BackendStatus ensures StatusToBackend(StatusToFrontend(s)) == s {
      StatusRoundTrips(s, NotStarted);
    }
  }

  /** ASCII lower-casing, used to compare the two spellings. */
  function Lower(s: string): (r: string)
    ensures |r| == |s|
  {
    seq(|s|, i requires 0 <= i < |s| => if 'A' <= s[i] <= 'Z' then (s[i] as int + 32) as char else s[i])
  }

  /** A priority's two labels, lower-cased. */
  lemma PriorityLabelsLowered(p: BackendPriority)
    ensures p == HIGH ==> Lower(p.Label()) == "high" && Lower(PriorityToFrontend(p).Label()) == "high"
    ensures p == NORMAL ==> Lower(p.Label()) == "normal" && Lower(PriorityToFrontend(p).Label()) == "medium"
    ensures p == LOW ==> Lower(p.Label()) == "low" && Lower(PriorityToFrontend(p).Label()) == "low"
  {
    match p
    case HIGH =>
      assert Lower("HIGH") == "high";
      assert Lower("High") == "high";
    case NORMAL =>
      assert Lower("NORMAL") == "normal";
      assert Lower("Medium") == "medium";
    case LOW =>
      assert Lower("LOW") == "low";
      assert Lower("Low") == "low";
  }

  /** A status's form label, lower-cased, is its backend label. */
  lemma StatusLabelLowered(s: BackendStatus)
    ensures Lower(StatusToFrontend(s).Label()) == s.Label()
  {
    match s
    case NOT_STARTED => assert Lower("Not Started") == "not started";
    case IN_PROGRESS => assert Lower("In Progress") == "in progress";
    case COMPLETED => assert Lower("Completed") == "completed";
  }

  /** Apart from NORMAL, which the form calls Medium, a priority's two labels
      differ only in letter case; the status labels always do. */
  lemma LabelsDifferOnlyInCase(p: BackendPriority, s: BackendStatus)
    ensures p != NORMAL <==> Lower(PriorityToFrontend(p).Label()) == Lower(p.Label())
    ensures Lower(StatusToFrontend(s).Label()) == s.Label()
  {
    PriorityLabelsLowered(p);
    StatusLabelLowered(s);
  }
}
