/** What each step on a field does to its lease, under the locks that keep everybody else away. */
module FieldOutcomes {
  import opened Prelude
  import opened Leases
  import opened Realtime

  // ----- Calls on the table -----

  lemma NothingOrKey(t: Table, key: Key)
    ensures t - KeySet([]) == t && KeySet([key]) == {key}
  {
  }

  /** The calls that only let a lease go: a release the caller's own, the removal of a resource any, the
      others one that has run out by then. */
  lemma LetsGoExactly(t: Table, c: Call)
    requires !c.Acquire? && !c.Renew? && !c.ReleaseUserInProject?
    ensures var goes := c.key in t && (if c.Release? then t[c.key].holder.socketId == c.socketId
                                       else c.ReleaseResource? || t[c.key].expiresAt <= c.now);
            After(t, c) == if goes then t - {c.key} else t
  {
    NothingOrKey(t, c.key);
  }

  /** A renewal adds a full term from now to the caller's own lease that has not run out, drops it if it
      has, and leaves anybody else's alone. */
  lemma RenewsExactly(t: Table, key: Key, socketId: SocketId, token: Token, now: int)
    ensures var t' := After(t, Renew(key, socketId, token, now));
            if key in t && t[key].holder.socketId == socketId && t[key].token == token then
              if t[key].expiresAt <= now then t' == t - {key}
              else t' == t[key := Lease(t[key].holder, token, now + 30_000)]
            else t' == t
  {
    NothingOrKey(t, key);
  }

  /** An acquire makes a lease of a full term on a free key, extends the caller's own, and leaves somebody
      else's alone. */
  lemma AcquiresExactly(t: Table, key: Key, holder: Holder, minted: Token, now: int)
    ensures var t' := After(t, Acquire(key, holder, minted, now));
            if key !in t || t[key].expiresAt <= now then t' == t[key := Lease(holder, minted, now + 30_000)]
            else if t[key].holder.socketId == holder.socketId
            then t' == t[key := Lease(t[key].holder, t[key].token, now + 30_000)]
            else t' == t
  {
    NothingOrKey(t, key);
  }

  // ----- Field messages -----

  /** What a lock, unlock, renewal or query, a disconnect and the timer leave at their key, each the last
      step of its job. */
  lemma MessagesExactly(s: State, o: OpId, minted: Token)
    requires Enabled(s, UseTable(o, minted))
    ensures var s', j, k, t := Next(s, UseTable(o, minted)), s.jobs[o], KeyOf(s, o), s.leases;
            && s' == s.(leases := s'.leases, progress := s.progress[o := Complete(true)])
            && var free := k !in t || t[k].expiresAt <= s.clock;
            match j
            case LockField(h) =>
              if free then s'.leases == t[k := Lease(h.(projectId := ProjectOf(s, o)), minted, s.clock + 30_000)]
              else if t[k].holder.socketId == h.socketId
              then s'.leases == t[k := t[k].(expiresAt := s.clock + 30_000)]
              else s'.leases == t
            case UnlockField(_, socket) =>
              s'.leases == if k in t && t[k].holder.socketId == socket then t - {k} else t
            case RenewField(_, socket, token) =>
              if k in t && t[k].holder.socketId == socket && t[k].token == token
              then s'.leases == if free then t - {k} else t[k := t[k].(expiresAt := s.clock + 30_000)]
              else s'.leases == t
            case DropSocket(socket) => s'.leases == if k in t && t[k].holder.socketId == socket then t - {k} else t
            case _ => s'.leases == if free then t - {k} else t
  {
    var c := TableCall(s, o, minted);
    if c.Acquire? {
      AcquiresExactly(s.leases, c.key, c.holder, c.minted, c.now);
    } else if c.Renew? {
      RenewsExactly(s.leases, c.key, c.socketId, c.token, c.now);
    } else {
      LetsGoExactly(s.leases, c);
    }
    assert KeyOf(s, o) !in s.leases ==> s.leases - {KeyOf(s, o)} == s.leases;
  }

  // ----- Validated updates and removals -----

  predicate Shows(l: Lease, user: UserId, p: ProjectId, token: Option<Token>) {
    l.holder.userId == user && l.holder.projectId == p && token == Some(l.token)
  }

  /** The first check passes exactly for the user's own lease, shown with its token and not run out. */
  lemma FirstCheckExactly(s: State, o: OpId)
    requires Enabled(s, CheckLease(o))
    ensures var s', j, p, k, t := Next(s, CheckLease(o)), s.jobs[o], ProjectOf(s, o), KeyOf(s, o), s.leases;
            && s' == s.(leases := s'.leases, progress := s'.progress)
            && s'.leases == (if k in t && t[k].expiresAt <= s.clock then t - {k} else t)
            && s'.progress == s.progress[o :=
                                if k in t && s.clock < t[k].expiresAt && Shows(t[k], j.user, p, j.token)
                                then LeaseSeen(t[k]) else Complete(false)]
  {
    var j := s.jobs[o];
    LetsGoExactly(s.leases, Validate(ProjectOf(s, o), KeyOf(s, o), j.user, j.token, s.clock));
  }

  /** The second one passes exactly while the key has an unexpired lease of that token. */
  lemma SecondCheckExactly(s: State, o: OpId)
    requires Enabled(s, Recheck(o))
    ensures var k, t := KeyOf(s, o), s.leases;
            Next(s, Recheck(o)) == At(s, o, if k in t && s.jobs[o].token == Some(t[k].token) && s.clock < t[k].expiresAt
                                            then Ready else Complete(false))
  {
  }

  /** A removal goes on exactly when the item is not locked or locked by its user, with the token. */
  lemma OwnerCheckExactly(s: State, o: OpId)
    requires Enabled(s, CheckOwner(o))
    ensures var s', j, p, k, t := Next(s, CheckOwner(o)), s.jobs[o], ProjectOf(s, o), KeyOf(s, o), s.leases;
            && s' == s.(leases := s'.leases, progress := s'.progress)
            && s'.leases == (if k in t && t[k].expiresAt <= s.clock then t - {k} else t)
            && s'.progress == s.progress[o :=
                                if k in t && s.clock < t[k].expiresAt && !Shows(t[k], j.user, p, j.token)
                                then Complete(false) else Ready]
  {
    var j := s.jobs[o];
    LetsGoExactly(s.leases, Call.AssertOwner(ProjectOf(s, o), KeyOf(s, o), j.user, j.token, s.clock));
  }

  /** A removed item takes its lease along. */
  lemma DroppedExactly(s: State, o: OpId)
    requires Enabled(s, DropLease(o))
    ensures Next(s, DropLease(o)) == s.(leases := s.leases - {KeyOf(s, o)})
  {
    LetsGoExactly(s.leases, ReleaseResource(KeyOf(s, o)));
    assert KeyOf(s, o) !in s.leases ==> s.leases - {KeyOf(s, o)} == s.leases;
  }

  // ----- The ends of a body -----

  /** A write is recorded with its user, its project and whether that user was a member then; a body that
      returns has succeeded, one that throws has failed, and neither does anything else. */
  lemma BodyEndsExactly(s: State, o: OpId)
    ensures Enabled(s, DoWrite(o)) ==>
              var user := UserOf(s.jobs[o]).value;
              Next(s, DoWrite(o)) == s.(written := s.written + [Write(user, ProjectOf(s, o),
                                                                      (user, ProjectOf(s, o)) in s.members)])
    ensures Enabled(s, Return(o)) ==> Next(s, Return(o)) == s.(progress := s.progress[o := Complete(true)])
    ensures Enabled(s, Fail(o)) ==> Next(s, Fail(o)) == s.(progress := s.progress[o := Complete(false)])
  {
  }
}
