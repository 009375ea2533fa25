/** WebSocket tickets over every run: one admission per issue, within a minute of it. */
module RefreshTickets {
  import opened Prelude
  import opened RefreshStore
  import opened RefreshRuns

  ghost predicate Reaches(es: seq<Event>) {
    RunFrom(EMPTY_STORE, es).Some?
  }

  ghost function RowsAt(es: seq<Event>): Rows
    requires Reaches(es)
  {
    RunFrom(EMPTY_STORE, es).value.rows
  }

  lemma {:induction false} RunOfPrefix(s: State, es: seq<Event>)
    requires es != [] && RunFrom(s, es).Some?
    ensures var n := |es| - 1;
            && RunFrom(s, es[..n]).Some? && Allowed(RunFrom(s, es[..n]).value, es[n])
            && RunFrom(s, es).value == State(After(RunFrom(s, es[..n]).value.rows, es[n]), es[n].now)
    decreases |es|
  {
    var n := |es| - 1;
    if n > 0 {
      RunOfPrefix(State(After(s.rows, es[0]), es[0].now), es[1..]);
      assert es[..n][1..] == es[1..][..n - 1];
    } else {
      assert es[..0] == [];
    }
  }

  /** Event i issued this ticket. */
  ghost predicate IssuedAt(es: seq<Event>, i: int, ticket: Secret) {
    && 0 <= i < |es| && es[i].IssueTicket? && es[i].ticket == ticket
    && Reaches(es[..i])
    && Issue(RowsAt(es[..i]), es[i].user, es[i].family, ticket, es[i].batch, es[i].now).1.Ok?
  }

  /** Event k admitted a connection with this ticket. */
  ghost predicate ConsumedAt(es: seq<Event>, k: int, ticket: Secret) {
    && 0 <= k < |es| && es[k].ConsumeTicket? && es[k].ticket == ticket
    && Reaches(es[..k])
    && Consume(RowsAt(es[..k]), ticket, es[k].now).1.Ok?
  }

  lemma PrefixEvents(es: seq<Event>, n: nat, i: int, ticket: Secret)
    requires i < n <= |es|
    ensures IssuedAt(es[..n], i, ticket) <==> IssuedAt(es, i, ticket)
    ensures ConsumedAt(es[..n], i, ticket) <==> ConsumedAt(es, i, ticket)
  {
    if 0 <= i {
      assert es[..n][..i] == es[..i];
    }
  }

  /** A ticket row carries one issue: its time, its deadline, its user and family; and while
      it is unconsumed nothing has been admitted with it since. */
  ghost predicate From(es: seq<Event>, i: int, ticket: Secret, t: Ticket) {
    && IssuedAt(es, i, ticket)
    && t.(consumedAt := None) == Ticket(es[i].user, es[i].family, es[i].now, es[i].now + WEB_SOCKET_TICKET_TTL, None)
    && (t.consumedAt.None? ==> forall k :: i < k < |es| ==> !ConsumedAt(es, k, ticket))
  }

  /** What one event does to a ticket row that is there afterwards. */
  lemma RowAfter(r: Rows, e: Event, ticket: Secret)
    requires Sha256(ticket) in After(r, e).tickets
    ensures var h, t' := Sha256(ticket), After(r, e).tickets[Sha256(ticket)];
            || (e.IssueTicket? && e.ticket == ticket && Issue(r, e.user, e.family, ticket, e.batch, e.now).1.Ok?
                && t' == Ticket(e.user, e.family, e.now, e.now + WEB_SOCKET_TICKET_TTL, None))
            || (&& h in r.tickets && t'.(consumedAt := None) == r.tickets[h].(consumedAt := None)
                && (t'.consumedAt.None? ==>
                      (r.tickets[h].consumedAt.None?
                       && !(e.ConsumeTicket? && e.ticket == ticket && Consume(r, ticket, e.now).1.Ok?))))
  {
  }

  lemma {:induction false} RowHasIssue(es: seq<Event>, ticket: Secret) returns (i: int)
    requires Reaches(es) && Sha256(ticket) in RowsAt(es).tickets
    ensures From(es, i, ticket, RowsAt(es).tickets[Sha256(ticket)])
    decreases |es|
  {
    var n := |es| - 1;
    RunOfPrefix(EMPTY_STORE, es);
    var before, e := es[..n], es[n];
    RowAfter(RowsAt(before), e, ticket);
    if IssuedAt(es, n, ticket) {
      i := n;
      assert es[..n] == before;
    } else {
      i := RowHasIssue(before, ticket);
      PrefixEvents(es, n, i, ticket);
      forall k | i < k < n ensures ConsumedAt(before, k, ticket) <==> ConsumedAt(es, k, ticket) {
        PrefixEvents(es, n, k, ticket);
      }
    }
  }

  /** A successful consume follows an issue of that very ticket by less than a minute, admits
      the user and family it was issued for while the account is active and the family not revoked
      and not out of time, and is the first since that issue. */
  lemma TicketAdmitsOnce(es: seq<Event>, k: nat, ticket: Secret)
    requires k < |es| && ConsumedAt(es, k, ticket)
    ensures exists i :: IssuedAt(es, i, ticket) && i < k && es[k].now < es[i].now + WEB_SOCKET_TICKET_TTL
              && Consume(RowsAt(es[..k]), ticket, es[k].now).1.value.user == es[i].user
              && Consume(RowsAt(es[..k]), ticket, es[k].now).1.value.family == es[i].family
              && es[i].user in RowsAt(es[..k]).users && RowsAt(es[..k]).users[es[i].user] == Active
              && es[i].family in RowsAt(es[..k]).families
              && var family := RowsAt(es[..k]).families[es[i].family];
              && family.user == es[i].user && family.revokedAt.None?
              && es[k].now < family.idleExpiresAt && es[k].now < family.absoluteExpiresAt
              && (forall j :: i < j < k ==> !ConsumedAt(es, j, ticket))
  {
    var before := es[..k];
    var i := RowHasIssue(before, ticket);
    PrefixEvents(es, k, i, ticket);
    forall j | i < j < k ensures !ConsumedAt(es, j, ticket) {
      PrefixEvents(es, k, j, ticket);
    }
  }
}
