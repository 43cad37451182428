/**
 Planned due times of first emails (backend/app/modules/campaigns/pacing.py).

 Seconds are reals. The hash of a message id enters only as a fraction of the closed interval
 [0, 1]: the eight hex digits divided by 0xFFFFFFFF can be exactly 1.
 */
module Pacing {
  import opened Wrappers
  import opened WindowCalendar

  const SECONDS_PER_DAY := 86_400
  const MIN_CAP_WINDOW_SECONDS := 3_600
  const JITTER_SLOT_SHARE := 0.2
  const JITTER_MAX_SECONDS := 15.0

  type Fraction = f: real | 0.0 <= f <= 1.0 witness 0.0

  datatype MailboxPacing = MailboxPacing(dailyCap: int, minSpacingSeconds: nat)

  /** A limit row of one mailbox. */
  datatype Policy = Policy(windowSeconds: int, limitValue: int, minSpacingSeconds: nat)

  function Max(a: int, b: int): int { if a < b then b else a }
  function Min(a: int, b: int): int { if b < a then b else a }
  function MaxR(a: real, b: real): real { if a < b then b else a }
  function MinR(a: real, b: real): real { if b < a then b else a }

  // ---- How many a day ------------------------------------------------------------------

  function DailyEquivalent(limitValue: int, windowSeconds: int): int
    requires windowSeconds > 0
  {
    Max(1, limitValue * SECONDS_PER_DAY / windowSeconds)
  }

  /** Ceiling division as the source writes it: `-(-a // b)`. */
  function CeilDiv(a: int, b: int): int
    requires b > 0
  {
    -((-a) / b)
  }

  function PerMailboxDaily(mailboxCap: int, campaignDailyLimit: Option<int>, mailboxCount: int): (perDay: int)
    ensures 1 <= perDay <= Max(1, mailboxCap)
  {
    var cap := Max(1, mailboxCap);
    if campaignDailyLimit.None? || campaignDailyLimit.value <= 0 then cap
    else Max(1, Min(cap, CeilDiv(campaignDailyLimit.value, Max(1, mailboxCount))))
  }

  function QueuePosition(captureOrdinal: int, mailboxCount: int): nat {
    Max(0, captureOrdinal - 1) / Max(1, mailboxCount)
  }

  /** Round robin over the mailboxes in allocation order; no mailbox at all is an error. */
  function AssignMailbox<M>(mailboxes: seq<M>, ordinal: int): Result<M, string> {
    if mailboxes == [] then Failure("No eligible mailboxes available for assignment")
    else Success(mailboxes[(ordinal - 1) % |mailboxes|])
  }

  // ---- When --------------------------------------------------------------------------

  function SlotSeconds(length: real, perDay: int, spacing: nat): real
    requires perDay >= 1
  {
    MaxR(spacing as real, length / perDay as real)
  }

  function JitterCap(slotSeconds: real, spacing: nat): real {
    MinR(MinR(slotSeconds * JITTER_SLOT_SHARE, JITTER_MAX_SECONDS), slotSeconds - spacing as real)
  }

  function Scaled(fraction: Fraction, cap: real): real { fraction * cap }

  function JitterSeconds(fraction: Fraction, slotSeconds: real, spacing: nat): real {
    var cap := JitterCap(slotSeconds, spacing);
    if cap <= 0.0 then 0.0 else Scaled(fraction, cap)
  }

  /** Where slot `slot` starts, in seconds from the start of its window. */
  function SlotStart(slot: int, slotSeconds: real): real {
    slot as real * slotSeconds
  }

  /** A slot start clamped into the window, moved by the jitter, and clamped again. */
  function Placed(w: Window, slotStart: real, jitter: real): real {
    var offset := MinR(slotStart, MaxR(0.0, w.Length() - 1.0)) + jitter;
    MinR(w.start + offset, w.end - 1.0)
  }

  /** The time inside window `w` of the message in slot `slot`. */
  function DueInWindow(w: Window, slot: nat, perDay: int, spacing: nat, fraction: Fraction): real
    requires perDay >= 1
  {
    var slotSeconds := SlotSeconds(w.Length(), perDay, spacing);
    Placed(w, SlotStart(slot, slotSeconds), JitterSeconds(fraction, slotSeconds, spacing))
  }

  function PlannedDueAt(windows: seq<Window>, position: nat, perDay: int, spacing: nat, fraction: Fraction)
    : Result<real, string>
  {
    var perDay := Max(1, perDay);
    if windows == [] then Failure("No eligible sending window found within the configured bound")
    else Success(DueInWindow(WindowAt(windows, position / perDay), position % perDay, perDay, spacing, fraction))
  }

  /**
   The planner of one activation. Its fields are set once; `hash` is the fraction a message id
   hashes to. `mailboxCount` is stored raised to at least 1, as the source does.
   */
  datatype DuePlanner = DuePlanner(
    windows: seq<Window>,
    mailboxCount: int,
    campaignDailyLimit: Option<int>,
    pacingByMailbox: map<int, MailboxPacing>,
    default: MailboxPacing,
    hash: int -> Fraction)
  {
    function Count(): int { Max(1, mailboxCount) }

    function PacingOf(mailbox: int): MailboxPacing {
      if mailbox in pacingByMailbox then pacingByMailbox[mailbox] else default
    }

    /** How many messages of `mailbox` go into one window. */
    function PerDay(mailbox: int): int {
      PerMailboxDaily(PacingOf(mailbox).dailyCap, campaignDailyLimit, Count())
    }

    function DueAt(mailbox: int, captureOrdinal: int, messageId: int): Result<real, string> {
      PlannedDueAt(windows, QueuePosition(captureOrdinal, Count()), PerDay(mailbox),
                   PacingOf(mailbox).minSpacingSeconds, hash(messageId))
    }
  }

  // ---- Policies ------------------------------------------------------------------------

  /** `cap` is the tightest daily cap among the rows whose window is an hour or more. */
  ghost predicate IsTightestCap(rows: seq<Policy>, cap: int) {
    && (exists i :: 0 <= i < |rows| && rows[i].windowSeconds >= MIN_CAP_WINDOW_SECONDS
                    && cap == DailyEquivalent(rows[i].limitValue, rows[i].windowSeconds))
    && forall i | 0 <= i < |rows| && rows[i].windowSeconds >= MIN_CAP_WINDOW_SECONDS ::
         cap <= DailyEquivalent(rows[i].limitValue, rows[i].windowSeconds)
  }

  /** `spacing` is the widest spacing among the rows and `floor`. */
  ghost predicate IsWidestSpacing(rows: seq<Policy>, floor: nat, spacing: nat) {
    && floor <= spacing
    && (forall i | 0 <= i < |rows| :: rows[i].minSpacingSeconds <= spacing)
    && (spacing == floor || exists i :: 0 <= i < |rows| && rows[i].minSpacingSeconds == spacing)
  }

  ghost predicate HasCapRow(rows: seq<Policy>) {
    exists i :: 0 <= i < |rows| && rows[i].windowSeconds >= MIN_CAP_WINDOW_SECONDS
  }

  function Minimum(caps: seq<int>): (m: int)
    requires caps != []
    ensures m in caps && forall c | c in caps :: m <= c
  {
    assert caps == [caps[0]] + caps[1..];
    if |caps| == 1 then caps[0] else Min(caps[0], Minimum(caps[1..]))
  }

  method PacingFromPolicies(rows: seq<Policy>, default: MailboxPacing) returns (p: MailboxPacing)
    ensures HasCapRow(rows) ==> IsTightestCap(rows, p.dailyCap) && IsWidestSpacing(rows, 0, p.minSpacingSeconds)
    ensures !HasCapRow(rows) ==> p.dailyCap == default.dailyCap
                                 && IsWidestSpacing(rows, default.minSpacingSeconds, p.minSpacingSeconds)
  {
    var caps: seq<int> := [];
    var spacing: nat := 0;
    for i := 0 to |rows|
      invariant IsWidestSpacing(rows[..i], 0, spacing)
      invariant forall c | c in caps :: exists j :: 0 <= j < i && rows[j].windowSeconds >= MIN_CAP_WINDOW_SECONDS
                                          && c == DailyEquivalent(rows[j].limitValue, rows[j].windowSeconds)
      invariant forall j | 0 <= j < i && rows[j].windowSeconds >= MIN_CAP_WINDOW_SECONDS ::
          DailyEquivalent(rows[j].limitValue, rows[j].windowSeconds) in caps
    {
      assert rows[..i + 1] == rows[..i] + [rows[i]];
      spacing := Max(spacing, rows[i].minSpacingSeconds);
      assert rows[..i + 1][i] == rows[i];
      if rows[i].windowSeconds >= MIN_CAP_WINDOW_SECONDS {
        caps := caps + [DailyEquivalent(rows[i].limitValue, rows[i].windowSeconds)];
      }
    }
    assert rows[..|rows|] == rows;
    if caps == [] {
      return MailboxPacing(default.dailyCap, Max(spacing, default.minSpacingSeconds));
    }
    assert caps[0] in caps;
    return MailboxPacing(Minimum(caps), spacing);
  }

  /** A daily cap never lets through more than the row's own rate, except that it is never below one a day. */
  lemma DailyEquivalentIsConservative(limitValue: int, windowSeconds: int)
    requires windowSeconds >= MIN_CAP_WINDOW_SECONDS
    ensures DailyEquivalent(limitValue, windowSeconds) >= 1
    ensures DailyEquivalent(limitValue, windowSeconds) > 1 ==>
              DailyEquivalent(limitValue, windowSeconds) * windowSeconds <= limitValue * SECONDS_PER_DAY
              < (DailyEquivalent(limitValue, windowSeconds) + 1) * windowSeconds
  {
  }
}
