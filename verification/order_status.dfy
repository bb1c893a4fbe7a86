/**
  Presentation of an order's status on the order-details page
  (src/pages/OrderDetails.tsx): badge colour, badge icon and the four-step
  progress indicator.  The status is free text; it is compared after
  lower-casing, and unrecognised text falls back to a neutral default.
 */
module OrderStatus {
  import opened Wrappers
  import opened Text

  /** Ionic colour names used for the status badge. */
  datatype Color = Success | Warning | Tertiary | Danger | Medium

  /** Ionicons used for the status badge. */
  datatype Icon = CheckmarkCircleOutline | HourglassOutline | TimeOutline | CloseCircleOutline | AlertCircleOutline

  /** The order lifecycle, with `Unknown` for any unrecognised text. */
  datatype Status = Pending | Processing | Shipped | Delivered | Cancelled | Unknown

  /**
    Badge colour, chosen on the lowered status text.
    It is determined by the lifecycle state, and the neutral default covers
    exactly the pending and unrecognised states.
   */
  function StatusColor(status: string): (c: Color)
    ensures c == Success <==> ParseStatus(status) == Delivered
    ensures c == Warning <==> ParseStatus(status) == Processing
    ensures c == Tertiary <==> ParseStatus(status) == Shipped
    ensures c == Danger <==> ParseStatus(status) == Cancelled
    ensures c == Medium <==> ParseStatus(status) in {Pending, Unknown}
  {
    match Lower(status)
    case "delivered" => Success
    case "processing" => Warning
    case "shipped" => Tertiary
    case "cancelled" => Danger
    case _ => Medium
  }

  /**
    Badge icon, chosen on the lowered status text.  It
    always agrees with the badge colour.
   */
  function StatusIcon(status: string): (icon: Icon)
    ensures icon == IconForColor(StatusColor(status))
  {
    match Lower(status)
    case "delivered" => CheckmarkCircleOutline
    case "processing" => HourglassOutline
    case "shipped" => TimeOutline
    case "cancelled" => CloseCircleOutline
    case _ => AlertCircleOutline
  }

  /** Reading of status text as a lifecycle state, ignoring ASCII case. */
  function ParseStatus(status: string): Status {
    var s := Lower(status);
    if s == "pending" then Pending
    else if s == "processing" then Processing
    else if s == "shipped" then Shipped
    else if s == "delivered" then Delivered
    else if s == "cancelled" then Cancelled
    else Unknown
  }

  /** The icon that accompanies each badge colour. */
  function IconForColor(c: Color): Icon {
    match c
    case Success => CheckmarkCircleOutline
    case Warning => HourglassOutline
    case Tertiary => TimeOutline
    case Danger => CloseCircleOutline
    case Medium => AlertCircleOutline
  }

  /** Texts that differ only in ASCII case get the same colour, icon and state. */
  lemma StatusIgnoresCase(a: string, b: string)
    requires Lower(a) == Lower(b)
    ensures StatusColor(a) == StatusColor(b)
    ensures StatusIcon(a) == StatusIcon(b)
    ensures ParseStatus(a) == ParseStatus(b)
  {
  }

  /** The four progress steps: 0 Pending, 1 Processing, 2 Shipped, 3 Delivered. */
  type Step = k: nat | k < 4

  /**
    Whether a progress step is marked completed: the page tests the lowered
    status against a list of states per step.  A step is completed exactly
    when the order's state has reached it.
   */
  function StepCompleted(status: string, step: Step): (done: bool)
    ensures done <==> Rank(ParseStatus(status)).Some? && step <= Rank(ParseStatus(status)).value
  {
    var s := Lower(status);
    match step
    case 0 => s in ["pending", "processing", "shipped", "delivered"]
    case 1 => s in ["processing", "shipped", "delivered"]
    case 2 => s in ["shipped", "delivered"]
    case 3 => s == "delivered"
  }

  /** How far along the lifecycle a state is; cancelled and unknown states are on no step. */
  function Rank(st: Status): Option<Step> {
    match st
    case Pending => Some(0)
    case Processing => Some(1)
    case Shipped => Some(2)
    case Delivered => Some(3)
    case _ => None
  }

  /** Progress is monotone: a completed step implies every earlier step is completed. */
  lemma ProgressMonotone(status: string, earlier: Step, later: Step)
    requires earlier <= later
    requires StepCompleted(status, later)
    ensures StepCompleted(status, earlier)
  {
  }

  /** Number of completed steps. */
  function CompletedSteps(status: string): (n: nat)
    ensures n <= 4
    ensures forall k: Step :: StepCompleted(status, k) <==> k < n
  {
    match Rank(ParseStatus(status))
    case None => 0
    case Some(r) => r + 1
  }

  /** Cancelled or unrecognised orders complete no step; delivered orders complete all four. */
  lemma ProgressEnds(status: string)
    ensures ParseStatus(status) in {Cancelled, Unknown} ==> CompletedSteps(status) == 0
    ensures ParseStatus(status) == Delivered ==> CompletedSteps(status) == 4
  {
  }
}
