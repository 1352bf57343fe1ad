/**
 * The follow-up board: the upcoming, overdue, completed and due-today views,
 * the urgency class of a card, the type and client filters, and the
 * "add next follow-up" form. All instants are UTC: a `YYYY-MM-DD` due date
 * parses as UTC midnight and `toISOString` reports the UTC date.
 */
module Followups {
  import opened Optional
  import opened Calendar
  import opened Sequences

  datatype FollowupType = PaymentFollowup | DocumentFollowup | ComplianceFollowup | GeneralFollowup

  datatype FollowupPriority = LowPriority | MediumPriority | HighPriority | UrgentPriority

  datatype FollowupStatus = FollowupPending | FollowupCompleted | FollowupCancelled

  /** The `due_date` value as the client receives it. */
  datatype DueField =
    | NullDue                 // null: `new Date(null)` is the epoch
    | EmptyDue                // "" or undefined: `new Date(...)` is an invalid date
    | OnDate(date: CivilDate) // a `YYYY-MM-DD` string
    | Unparsable              // any other non-empty string: an invalid date

  datatype Followup = Followup(
    id: int,
    clientId: int,
    taskId: Option<int>,
    billId: Option<int>,
    kind: FollowupType,
    subject: string,
    description: Option<string>,
    priority: FollowupPriority,
    due: DueField,
    status: FollowupStatus,
    assignedTo: Option<int>)

  /** `new Date("YYYY-MM-DD")`. */
  function Midnight(d: CivilDate): Instant {
    DateTime(d, 0)
  }

  const Epoch: Instant := DateTime(Date(1970, 1, 1), 0)

  // ---------------------------------------------------------------------------
  // The four views

  predicate IsCompleted(f: Followup) {
    f.status == FollowupCompleted
  }

  /** Not completed, and no due date, or one that is not yet past. */
  predicate IsUpcoming(f: Followup, now: Instant) {
    !IsCompleted(f) &&
    match f.due
    case NullDue => true
    case EmptyDue => true
    case OnDate(d) => InstantLeq(now, Midnight(d))
    case Unparsable => false
  }

  /** Not completed, with a due date strictly before now. */
  predicate IsOverdue(f: Followup, now: Instant) {
    !IsCompleted(f) && f.due.OnDate? && InstantLess(Midnight(f.due.date), now)
  }

  /** Not completed, with a due date that is today's UTC date. */
  predicate IsDueToday(f: Followup, now: Instant) {
    !IsCompleted(f) && f.due == OnDate(now.date)
  }

  function Upcoming(s: seq<Followup>, now: Instant): seq<Followup> {
    Filter(s, f => IsUpcoming(f, now))
  }

  function Overdue(s: seq<Followup>, now: Instant): seq<Followup> {
    Filter(s, f => IsOverdue(f, now))
  }

  function Completed(s: seq<Followup>): seq<Followup> {
    Filter(s, IsCompleted)
  }

  function DueToday(s: seq<Followup>, now: Instant): seq<Followup> {
    Filter(s, f => IsDueToday(f, now))
  }

  /** A due-date string no view understands (it is in none of the three). */
  predicate Stray(f: Followup) {
    !IsCompleted(f) && f.due == Unparsable
  }

  /** Each follow-up with a readable due date is in exactly one of the three views. */
  lemma ExactlyOneView(f: Followup, now: Instant)
    ensures !Stray(f) ==> IsUpcoming(f, now) || IsOverdue(f, now) || IsCompleted(f)
    ensures !(IsUpcoming(f, now) && IsOverdue(f, now))
    ensures !(IsUpcoming(f, now) && IsCompleted(f))
    ensures !(IsOverdue(f, now) && IsCompleted(f))
    ensures Stray(f) ==> !IsUpcoming(f, now) && !IsOverdue(f, now) && !IsCompleted(f)
  {
    if f.due.OnDate? {
      DateOrderTotal(f.due.date, now.date);
    }
  }

  /** The three views split the list: every follow-up lands in one, none in two. */
  lemma {:induction false} ViewsPartition(s: seq<Followup>, now: Instant)
    requires forall f :: f in s ==> !Stray(f)
    ensures multiset(Upcoming(s, now)) + multiset(Overdue(s, now)) + multiset(Completed(s))
            == multiset(s)
    decreases |s|
  {
    if |s| > 0 {
      ExactlyOneView(s[0], now);
      ViewsPartition(s[1..], now);
      assert s == [s[0]] + s[1..];
    }
  }

  /** Due today and past midnight means overdue; at midnight exactly it is still upcoming. */
  lemma DueTodayIsOverdueAfterMidnight(f: Followup, now: Instant)
    requires IsDueToday(f, now)
    ensures now.msOfDay > 0 ==> IsOverdue(f, now)
    ensures now.msOfDay == 0 ==> IsUpcoming(f, now)
  {
  }

  // ---------------------------------------------------------------------------
  // Card urgency

  /** `Math.ceil(a / b)` for a positive divisor. */
  function CeilDiv(a: int, b: int): (q: int)
    requires b > 0
    ensures (q - 1) * b < a <= q * b
  {
    -((-a) / b)
  }

  datatype CardClass =
    | CompletedCard
    | OverdueCard(daysLate: int) // the badge shows `Math.abs(diffDays)`
    | DueSoonCard(daysLeft: int) // 0 shows "!"
    | PlainCard

  /** `Math.ceil((due - now) / day)`. */
  function DiffDays(due: Instant, now: Instant): int {
    CeilDiv(ElapsedMs(now, due), MsPerDay)
  }

  /** The branch chain after the completed check; an invalid date gives NaN and no class. */
  function ClassifyDue(due: Option<Instant>, now: Instant): (c: CardClass)
    ensures c != CompletedCard
  {
    match due
    case None => PlainCard
    case Some(t) =>
      var d := DiffDays(t, now);
      if d < 0 then OverdueCard(-d) else if d <= 2 then DueSoonCard(d) else PlainCard
  }

  /** `new Date(followup.due_date)` as the card code evaluates it: null becomes the epoch. */
  function DueInstantAsWritten(due: DueField): Option<Instant> {
    match due
    case NullDue => Some(Epoch)
    case EmptyDue => None
    case OnDate(d) => Some(Midnight(d))
    case Unparsable => None
  }

  /** A null due date read as no due date at all, as the views read it. */
  function DueInstant(due: DueField): (r: Option<Instant>)
    ensures r.Some? <==> due.OnDate?
  {
    if due.OnDate? then Some(Midnight(due.date)) else None
  }

  function ClassifyAsWritten(f: Followup, now: Instant): CardClass {
    if IsCompleted(f) then CompletedCard else ClassifyDue(DueInstantAsWritten(f.due), now)
  }

  function Classify(f: Followup, now: Instant): CardClass {
    if IsCompleted(f) then CompletedCard else ClassifyDue(DueInstant(f.due), now)
  }

  /** A completed follow-up is always drawn completed, and only it. */
  lemma CompletedClassWins(f: Followup, now: Instant)
    ensures Classify(f, now) == CompletedCard <==> IsCompleted(f)
    ensures ClassifyAsWritten(f, now) == CompletedCard <==> IsCompleted(f)
  {
  }

  /**
   * The card bands: more than a day late is overdue, within the next two
   * days (or less than a day late) is due soon, later is plain.
   */
  lemma CardBands(f: Followup, now: Instant)
    requires !IsCompleted(f) && f.due.OnDate?
    ensures var e := ElapsedMs(now, Midnight(f.due.date));
            && (Classify(f, now).OverdueCard? <==> e <= -MsPerDay)
            && (Classify(f, now).DueSoonCard? <==> -MsPerDay < e <= 2 * MsPerDay)
            && (Classify(f, now) == DueSoonCard(0) <==> -MsPerDay < e <= 0)
            && (Classify(f, now) == PlainCard <==> e > 2 * MsPerDay)
  {
  }

  /** An overdue card is in the overdue view. */
  lemma OverdueCardInOverdueView(f: Followup, now: Instant)
    requires Classify(f, now).OverdueCard?
    ensures IsOverdue(f, now)
  {
    ElapsedSign(now, Midnight(f.due.date));
  }

  /** An overdue follow-up shows as overdue, or as due soon with "!" when less than a day late. */
  lemma OverdueViewCard(f: Followup, now: Instant)
    requires IsOverdue(f, now)
    ensures Classify(f, now).OverdueCard? || Classify(f, now) == DueSoonCard(0)
  {
    ElapsedSign(now, Midnight(f.due.date));
  }

  /** An upcoming follow-up never shows as overdue. */
  lemma UpcomingNeverOverdueCard(f: Followup, now: Instant)
    requires IsUpcoming(f, now)
    ensures !Classify(f, now).OverdueCard?
  {
    if f.due.OnDate? {
      ElapsedSign(now, Midnight(f.due.date));
    }
  }

  /**
   * As written, a follow-up with a null due date is listed as upcoming but its
   * card is classed overdue, by the days since 1 January 1970.
   */
  lemma NullDueShownOverdue(f: Followup, now: Instant)
    requires !IsCompleted(f) && f.due == NullDue && now.date.year >= 1971
    ensures IsUpcoming(f, now)
    ensures ClassifyAsWritten(f, now).OverdueCard?
  {
    ElapsedToEarlierMidnight(now, Epoch);
  }

  // ---------------------------------------------------------------------------
  // Filters

  datatype View = UpcomingView | OverdueView | CompletedView | OtherView

  /** The list of the current view; any other view name falls back to upcoming. */
  function ViewList(s: seq<Followup>, view: View, now: Instant): seq<Followup> {
    match view
    case UpcomingView => Upcoming(s, now)
    case OverdueView => Overdue(s, now)
    case CompletedView => Completed(s)
    case OtherView => Upcoming(s, now)
  }

  /** Type filter (strict equality) and client filter (loose equality with the select's id). */
  predicate Matches(f: Followup, kind: Option<FollowupType>, client: Option<int>) {
    (kind.None? || f.kind == kind.value) && (client.None? || f.clientId == client.value)
  }

  function KindIs(kind: FollowupType): Followup -> bool {
    (f: Followup) => f.kind == kind
  }

  /** `f.client_id == clientId`: the select's value is the id's decimal form, compared numerically. */
  function ClientIs(client: int): Followup -> bool {
    (f: Followup) => f.clientId == client
  }

  /** `filterFollowups`: the view's list, then the type filter, then the client filter. */
  function FilterFollowups(s: seq<Followup>, view: View, kind: Option<FollowupType>,
                           client: Option<int>, now: Instant): seq<Followup>
  {
    var l := ViewList(s, view, now);
    var byKind := if kind.Some? then Filter(l, KindIs(kind.value)) else l;
    if client.Some? then Filter(byKind, ClientIs(client.value)) else byKind
  }

  /** The filters only drop items of the view's list, keeping order, and drop exactly the non-matching ones. */
  lemma FilterFollowupsSound(s: seq<Followup>, view: View, kind: Option<FollowupType>,
                             client: Option<int>, now: Instant)
    ensures Subsequence(FilterFollowups(s, view, kind, client, now), ViewList(s, view, now))
    ensures forall f :: f in FilterFollowups(s, view, kind, client, now)
                        <==> f in ViewList(s, view, now) && Matches(f, kind, client)
  {
    var l := ViewList(s, view, now);
    var r := FilterFollowups(s, view, kind, client, now);
    if kind.Some? && client.Some? {
      var both := Both(KindIs(kind.value), ClientIs(client.value));
      FilterTwice(l, KindIs(kind.value), ClientIs(client.value));
      FilterSubsequence(l, both);
    } else if kind.Some? {
      FilterSubsequence(l, KindIs(kind.value));
    } else if client.Some? {
      FilterSubsequence(l, ClientIs(client.value));
    } else {
      SubsequenceReflexive(l);
    }
    forall f
      ensures f in r <==> f in l && Matches(f, kind, client)
    {
      if kind.Some? && client.Some? {
        FilterMembers(l, Both(KindIs(kind.value), ClientIs(client.value)), f);
      } else if kind.Some? {
        FilterMembers(l, KindIs(kind.value), f);
      } else if client.Some? {
        FilterMembers(l, ClientIs(client.value), f);
      }
    }
  }

  // ---------------------------------------------------------------------------
  // Add next follow-up

  /** The fields of the "next follow-up" form; an empty date input is `None`. */
  datatype NextForm = NextForm(
    kind: FollowupType,
    subject: string,
    description: Option<string>,
    priority: FollowupPriority,
    due: Option<CivilDate>)

  /** The follow-up the form posts: links copied from the current one, pending, due or null. */
  function NextFollowup(id: int, current: Followup, form: NextForm): (n: Followup)
    ensures n.clientId == current.clientId && n.assignedTo == current.assignedTo
    ensures n.taskId == current.taskId && n.billId == current.billId
    ensures n.status == FollowupPending
    ensures n.kind == form.kind && n.subject == form.subject
    ensures form.due.None? ==> n.due == NullDue
    ensures form.due.Some? ==> n.due == OnDate(form.due.value)
  {
    Followup(id, current.clientId, current.taskId, current.billId, form.kind, form.subject,
             form.description, form.priority,
             if form.due.Some? then OnDate(form.due.value) else NullDue,
             FollowupPending, current.assignedTo)
  }

  /** The next follow-up is upcoming unless its date is already past, then overdue. */
  lemma NextFollowupListed(id: int, current: Followup, form: NextForm, now: Instant)
    ensures var n := NextFollowup(id, current, form);
            && !IsCompleted(n)
            && (IsUpcoming(n, now) <==> form.due.None? || InstantLeq(now, Midnight(form.due.value)))
            && (IsOverdue(n, now) <==> !IsUpcoming(n, now))
  {
    var n := NextFollowup(id, current, form);
    ExactlyOneView(n, now);
  }
}
