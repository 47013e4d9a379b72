/**
 * The poll/vote ledger behind the HTTP handlers of the polling backend.
 *
 * The relational store is modelled as three tables kept in insertion order
 * (`polls`, `options`, `votes`) inside one `PollStore` object; each handler
 * is a method of that object that answers with a status code and a body.
 * Wall-clock time is the parameter `now`, the keyed IP hash is the function
 * `hashIp` fixed when the store is built (one process, one secret), and the
 * real-time fan-out is recorded in the ghost log `broadcasts`.
 *
 * Storage assumptions (the schema file is not part of this model):
 *  - votes carry a uniqueness constraint on (poll_id, voter_hash);
 *  - deleting a poll cascades to its options and their votes;
 *  - an option id comes from a serial sequence starting at 1, and a value
 *    drawn from the sequence is not given back when a transaction rolls back;
 *  - the option id column is a 32-bit signed integer (`MaxOptionId`);
 *  - a new poll row gets `created_at = now` and no expiry.
 */
module PollLedger {
  import opened Wrappers
  import opened Text

  type PollId = string

  const OK := 200
  const CREATED := 201
  const BAD_REQUEST := 400
  const FORBIDDEN := 403
  const NOT_FOUND := 404
  const SERVER_ERROR := 500

  const MinOptions := 2
  const MaxOptions := 10

  const QuestionRequired := "Question is required"
  const TooFewOptions := "At least 2 options are required"
  const TooManyOptions := "Maximum 10 options allowed"
  const TooFewNonEmpty := "At least 2 non-empty options are required"
  const CreateFailed := "Failed to create poll"
  const EmailRequired := "Email is required"
  const PollNotFound := "Poll not found"
  const BadOptionId := "optionId must be a valid number"
  const VoterHashRequired := "voterHash is required"
  const NoClientIp := "Unable to determine client IP address"
  const PollExpired := "This poll has expired"
  const InvalidOption := "Invalid option for this poll"
  const AlreadyVoted := "You have already voted on this poll"
  const VoteFailed := "Failed to submit vote"

  /**
   * The largest value the `options.id` column holds (a PostgreSQL `SERIAL`,
   * a 32-bit signed integer). A larger `optionId` passes the handler's own
   * check but makes the option lookup fail in the database.
   */
  const MaxOptionId := 2147483647

  /** A field of a JSON request body or query string, as far as the handlers inspect it. */
  datatype JsValue =
    | Absent
    | JsString(s: string)
    | JsArray(items: seq<JsValue>)
    | JsOther(truthy: bool)  // numbers, booleans, null, objects

  /** JavaScript truthiness. */
  predicate Truthy(v: JsValue) {
    match v
    case Absent => false
    case JsString(s) => s != []
    case JsArray(_) => true
    case JsOther(t) => t
  }

  /** Truthiness of a field that is either missing or a string. */
  predicate Filled(v: Option<string>) {
    v.Some? && v.value != []
  }

  // ---------------------------------------------------------------- rows

  datatype Poll = Poll(id: PollId, question: string, creatorEmail: Option<string>,
                       expiresAt: Option<int>, createdAt: int)
  datatype OptionRow = OptionRow(id: int, pollId: PollId, text: string, position: int)
  datatype VoteRow = VoteRow(optionId: int, pollId: PollId, voterHash: string, ipHash: string)

  /** One entry of a poll's tally: an option with the number of votes it has. */
  datatype OptionTally = OptionTally(id: int, text: string, votes: nat)
  datatype Status = Active | Ended
  datatype DashboardRow = DashboardRow(id: PollId, question: string, votes: nat,
                                       status: Status, createdAt: int)
  /** A `poll_update` event pushed to every subscriber of a poll's room. */
  datatype Broadcast = Broadcast(pollId: PollId, options: seq<OptionTally>)

  datatype Body =
    | ErrorBody(error: string)
    | CreatedBody(id: PollId)
    | DashboardBody(rows: seq<DashboardRow>)
    | PollBody(id: PollId, question: string, expiresAt: Option<int>, options: seq<OptionTally>)
    | VoteBody(success: bool, options: seq<OptionTally>)
    | DeletedBody(success: bool)

  datatype Response = Response(status: int, body: Body)

  // ---------------------------------------------------------------- create validation

  /** What a well-formed create request yields: the trimmed question and option texts. */
  datatype NewPoll = NewPoll(question: string, options: seq<string>)

  predicate QuestionInvalid(q: JsValue) {
    !Truthy(q) || !q.JsString? || IsBlank(q.s)
  }

  predicate KeptOption(v: JsValue) {
    v.JsString? && !IsBlank(v.s)
  }

  /** The options that are strings and not blank, in their original order. */
  function FilterOptions(items: seq<JsValue>): (r: seq<string>)
    ensures |r| <= |items|
    ensures forall x :: x in r <==> JsString(x) in items && !IsBlank(x)
  {
    if items == [] then []
    else
      var last := items[|items| - 1];
      assert items == items[..|items| - 1] + [last];
      FilterOptions(items[..|items| - 1]) + (if KeptOption(last) then [last.s] else [])
  }

  /**
   * The indices of the entries `FilterOptions` keeps: strictly increasing and
   * each naming a string, non-blank entry (`KeptIndicesComplete`: every such
   * entry is named).
   */
  function KeptIndices(items: seq<JsValue>): (f: seq<int>)
    ensures forall k :: 0 <= k < |f| ==> 0 <= f[k] < |items| && KeptOption(items[f[k]])
    ensures forall k, l :: 0 <= k < l < |f| ==> f[k] < f[l]
  {
    if items == [] then []
    else
      var n := |items| - 1;
      var init := items[..n];
      var f0 := KeptIndices(init);
      assert forall k :: 0 <= k < |f0| ==> items[f0[k]] == init[f0[k]];
      f0 + (if KeptOption(items[n]) then [n] else [])
  }

  lemma {:induction false} KeptIndicesComplete(items: seq<JsValue>, i: int)
    requires 0 <= i < |items| && KeptOption(items[i])
    ensures i in KeptIndices(items)
  {
    var n := |items| - 1;
    var init := items[..n];
    if i < n {
      assert init[i] == items[i];
      KeptIndicesComplete(init, i);
    }
  }

  /**
   * The filter keeps every kept entry once and in its original order: entry
   * k of the result is the text at the k-th index of `KeptIndices`.
   */
  lemma {:induction false} FilterOptionsInOrder(items: seq<JsValue>)
    ensures |KeptIndices(items)| == |FilterOptions(items)|
    ensures forall k :: 0 <= k < |FilterOptions(items)| ==>
      items[KeptIndices(items)[k]] == JsString(FilterOptions(items)[k])
  {
    if items != [] {
      var n := |items| - 1;
      var init := items[..n];
      FilterOptionsInOrder(init);
      var f0, r0 := KeptIndices(init), FilterOptions(init);
      var f, r := KeptIndices(items), FilterOptions(items);
      assert f == f0 + (if KeptOption(items[n]) then [n] else []);
      assert r == r0 + (if KeptOption(items[n]) then [items[n].s] else []);
      forall k | 0 <= k < |r| ensures items[f[k]] == JsString(r[k]) {
        if k < |f0| {
          assert f[k] == f0[k] && r[k] == r0[k];
          assert items[f0[k]] == init[f0[k]];
        }
      }
    }
  }

  function TrimAll(xs: seq<string>): (r: seq<string>)
    ensures |r| == |xs|
  {
    seq(|xs|, i requires 0 <= i < |xs| => Trim(xs[i]))
  }

  /** `creatorEmail || null`. */
  function CreatorTag(email: Option<string>): (r: Option<string>)
    ensures r.Some? ==> r.value != [] && r == email
    ensures Filled(email) ==> r == email
  {
    if Filled(email) then email else None
  }

  /** The validation of `POST /`, in the order the handler runs its checks. */
  function ValidateCreate(question: JsValue, options: JsValue): (r: Result<NewPoll, string>)
    ensures r == Err(QuestionRequired) <==> QuestionInvalid(question)
    ensures r == Err(TooFewOptions) <==>
      !QuestionInvalid(question) && (!options.JsArray? || |options.items| < MinOptions)
    ensures r == Err(TooManyOptions) <==>
      !QuestionInvalid(question) && options.JsArray? && |options.items| > MaxOptions
    ensures r == Err(TooFewNonEmpty) <==>
      && !QuestionInvalid(question) && options.JsArray?
      && MinOptions <= |options.items| <= MaxOptions
      && |FilterOptions(options.items)| < MinOptions
    ensures r.Err? ==> r.error in {QuestionRequired, TooFewOptions, TooManyOptions, TooFewNonEmpty}
    ensures r.Ok? ==>
      && question.JsString? && options.JsArray?
      && r.value.question == Trim(question.s) && r.value.question != []
      && r.value.options == TrimAll(FilterOptions(options.items))
      && MinOptions <= |r.value.options| <= MaxOptions
      && forall i :: 0 <= i < |r.value.options| ==> r.value.options[i] != []
  {
    if QuestionInvalid(question) then Err(QuestionRequired)
    else if !options.JsArray? || |options.items| < MinOptions then Err(TooFewOptions)
    else if |options.items| > MaxOptions then Err(TooManyOptions)
    else
      var kept := FilterOptions(options.items);
      if |kept| < MinOptions then Err(TooFewNonEmpty)
      else
        assert forall i :: 0 <= i < |kept| ==> !IsBlank(kept[i]) by {
          forall i | 0 <= i < |kept| ensures !IsBlank(kept[i]) {
            assert kept[i] in kept;
          }
        }
        Ok(NewPoll(Trim(question.s), TrimAll(kept)))
  }

  /** The option rows inserted for a new poll: option i has position i. */
  function NewOptionRows(pollId: PollId, texts: seq<string>, firstId: int): (r: seq<OptionRow>)
    ensures |r| == |texts|
  {
    seq(|texts|, i requires 0 <= i < |texts| => OptionRow(firstId + i, pollId, texts[i], i))
  }

  lemma NewOptionRowsSnoc(pollId: PollId, texts: seq<string>, firstId: int, i: nat)
    requires i < |texts|
    ensures NewOptionRows(pollId, texts[..i + 1], firstId)
         == NewOptionRows(pollId, texts[..i], firstId) + [OptionRow(firstId + i, pollId, texts[i], i)]
  {
  }

  // ---------------------------------------------------------------- queries over the tables

  predicate HasPoll(polls: seq<Poll>, id: PollId) {
    exists p :: p in polls && p.id == id
  }

  /** `SELECT ... FROM polls WHERE id = $1`. */
  function FindPoll(polls: seq<Poll>, id: PollId): (r: Option<Poll>)
    ensures r.Some? ==> r.value in polls && r.value.id == id
    ensures r.None? <==> !HasPoll(polls, id)
  {
    if polls == [] then None
    else if polls[|polls| - 1].id == id then Some(polls[|polls| - 1])
    else
      assert polls == polls[..|polls| - 1] + [polls[|polls| - 1]];
      FindPoll(polls[..|polls| - 1], id)
  }

  /** `SELECT id FROM options WHERE id = $1 AND poll_id = $2` finds a row. */
  predicate HasOption(options: seq<OptionRow>, optionId: int, pollId: PollId) {
    exists o :: o in options && o.id == optionId && o.pollId == pollId
  }

  /** A vote with this (poll_id, voter_hash) key is already stored. */
  predicate HasVoted(votes: seq<VoteRow>, pollId: PollId, voterHash: string) {
    exists v :: v in votes && v.pollId == pollId && v.voterHash == voterHash
  }

  /** The options of one poll, in table order. */
  function OptionsOf(options: seq<OptionRow>, pollId: PollId): (r: seq<OptionRow>)
    ensures |r| <= |options|
    ensures forall o :: o in r <==> o in options && o.pollId == pollId
  {
    if options == [] then []
    else
      var last := options[|options| - 1];
      assert options == options[..|options| - 1] + [last];
      OptionsOf(options[..|options| - 1], pollId) + (if last.pollId == pollId then [last] else [])
  }

  /** The number of stored votes cast for one option. */
  function CountVotes(votes: seq<VoteRow>, optionId: int): (n: nat)
    ensures n <= |votes|
    ensures n == 0 <==> forall v :: v in votes ==> v.optionId != optionId
  {
    if votes == [] then 0
    else
      assert votes == votes[..|votes| - 1] + [votes[|votes| - 1]];
      CountVotes(votes[..|votes| - 1], optionId) + (if votes[|votes| - 1].optionId == optionId then 1 else 0)
  }

  /** The number of stored votes that belong to one poll. */
  function PollVotes(votes: seq<VoteRow>, pollId: PollId): (n: nat)
    ensures n <= |votes|
    ensures n == 0 <==> forall v :: v in votes ==> v.pollId != pollId
  {
    if votes == [] then 0
    else
      assert votes == votes[..|votes| - 1] + [votes[|votes| - 1]];
      PollVotes(votes[..|votes| - 1], pollId) + (if votes[|votes| - 1].pollId == pollId then 1 else 0)
  }

  /** One tally entry per option row: its id, its text and the votes cast for it. */
  function TallyRows(os: seq<OptionRow>, votes: seq<VoteRow>): (t: seq<OptionTally>)
    ensures |t| == |os|
    ensures forall i :: 0 <= i < |os| ==>
      t[i] == OptionTally(os[i].id, os[i].text, CountVotes(votes, os[i].id))
  {
    if os == [] then []
    else
      var last := os[|os| - 1];
      TallyRows(os[..|os| - 1], votes) + [OptionTally(last.id, last.text, CountVotes(votes, last.id))]
  }

  /** The per-option counts of a poll (the LEFT JOIN ... GROUP BY ... ORDER BY position query). */
  function Tally(options: seq<OptionRow>, votes: seq<VoteRow>, pollId: PollId): seq<OptionTally> {
    TallyRows(OptionsOf(options, pollId), votes)
  }

  function TotalVotes(t: seq<OptionTally>): nat {
    if t == [] then 0 else TotalVotes(t[..|t| - 1]) + t[|t| - 1].votes
  }

  /** `expires_at IS NOT NULL AND expires_at < now`. */
  predicate Expired(p: Poll, now: int) {
    p.expiresAt.Some? && p.expiresAt.value < now
  }

  function StatusAt(p: Poll, now: int): Status {
    if Expired(p, now) then Ended else Active
  }

  function RowOf(p: Poll, options: seq<OptionRow>, votes: seq<VoteRow>, now: int): DashboardRow {
    DashboardRow(p.id, p.question, TotalVotes(Tally(options, votes, p.id)), StatusAt(p, now), p.createdAt)
  }

  /** The dashboard rows of the polls tagged with `email`, in table order. */
  function RowsFor(polls: seq<Poll>, options: seq<OptionRow>, votes: seq<VoteRow>,
                   email: string, now: int): (r: seq<DashboardRow>)
    ensures forall p :: p in polls && p.creatorEmail == Some(email) ==> RowOf(p, options, votes, now) in r
    ensures forall x :: x in r ==>
      exists p :: p in polls && p.creatorEmail == Some(email) && x == RowOf(p, options, votes, now)
  {
    if polls == [] then []
    else
      var last := polls[|polls| - 1];
      assert polls == polls[..|polls| - 1] + [last];
      RowsFor(polls[..|polls| - 1], options, votes, email, now)
        + (if last.creatorEmail == Some(email) then [RowOf(last, options, votes, now)] else [])
  }

  /** One poll per id gives one row per id (`GROUP BY p.id`). */
  lemma {:induction false} RowsForDistinct(polls: seq<Poll>, options: seq<OptionRow>, votes: seq<VoteRow>,
                                           email: string, now: int)
    requires UniquePollIds(polls)
    ensures DistinctIds(RowsFor(polls, options, votes, email, now))
  {
    if polls != [] {
      var init, last := polls[..|polls| - 1], polls[|polls| - 1];
      assert polls == init + [last];
      assert UniquePollIds(init) by {
        forall i, j | 0 <= i < j < |init| ensures init[i].id != init[j].id {
          assert init[i] == polls[i] && init[j] == polls[j];
        }
      }
      RowsForDistinct(init, options, votes, email, now);
      var rest := RowsFor(init, options, votes, email, now);
      forall x | x in rest ensures x.id != last.id {
        var p :| p in init && p.creatorEmail == Some(email) && x == RowOf(p, options, votes, now);
        assert x.id == p.id;
        var k :| 0 <= k < |init| && init[k] == p;
        assert polls[k] == p;
      }
      AppendKeepsDistinct(rest, if last.creatorEmail == Some(email) then [RowOf(last, options, votes, now)] else []);
    }
  }

  lemma AppendKeepsDistinct(rows: seq<DashboardRow>, more: seq<DashboardRow>)
    requires DistinctIds(rows) && |more| <= 1
    requires forall x, y :: x in rows && y in more ==> x.id != y.id
    ensures DistinctIds(rows + more)
  {
    var all := rows + more;
    forall i, j | 0 <= i < j < |all| ensures all[i].id != all[j].id {
      if j >= |rows| {
        assert all[i] in rows && all[j] in more;
      }
    }
  }

  /** No two rows are about the same poll (`GROUP BY p.id`). */
  predicate DistinctIds(rows: seq<DashboardRow>) {
    forall i, j :: 0 <= i < j < |rows| ==> rows[i].id != rows[j].id
  }

  predicate NewestFirst(rows: seq<DashboardRow>) {
    forall i, j :: 0 <= i < j < |rows| ==> rows[i].createdAt >= rows[j].createdAt
  }

  /** Inserts a row into a newest-first list, before the first row that is not newer. */
  function InsertByAge(x: DashboardRow, rows: seq<DashboardRow>): (r: seq<DashboardRow>)
    requires NewestFirst(rows)
    ensures NewestFirst(r)
    ensures forall y :: y in r ==> y == x || y in rows
    ensures multiset(r) == multiset(rows) + multiset{x}
  {
    if rows == [] then [x]
    else if x.createdAt >= rows[0].createdAt then
      NewestFirstCons(x, rows);
      [x] + rows
    else
      var rest := InsertByAge(x, rows[1..]);
      assert rows == [rows[0]] + rows[1..];
      NewestFirstCons(rows[0], rest);
      [rows[0]] + rest
  }

  lemma NewestFirstCons(h: DashboardRow, t: seq<DashboardRow>)
    requires NewestFirst(t)
    requires forall y :: y in t ==> h.createdAt >= y.createdAt
    ensures NewestFirst([h] + t)
  {
    forall i, j | 0 <= i < j < |[h] + t| ensures ([h] + t)[i].createdAt >= ([h] + t)[j].createdAt {
      if i == 0 {
        assert ([h] + t)[j] in t;
      }
    }
  }

  /** `ORDER BY created_at DESC`: a newest-first permutation of `rows`. */
  function SortNewestFirst(rows: seq<DashboardRow>): (r: seq<DashboardRow>)
    ensures NewestFirst(r)
    ensures multiset(r) == multiset(rows)
  {
    if rows == [] then []
    else
      assert rows == [rows[0]] + rows[1..];
      InsertByAge(rows[0], SortNewestFirst(rows[1..]))
  }

  lemma {:induction false} InsertByAgeDistinct(x: DashboardRow, rows: seq<DashboardRow>)
    requires NewestFirst(rows) && DistinctIds(rows)
    requires forall y :: y in rows ==> y.id != x.id
    ensures DistinctIds(InsertByAge(x, rows))
  {
    if rows == [] || x.createdAt >= rows[0].createdAt {
      ConsKeepsDistinct(x, rows);
    } else {
      var tail := rows[1..];
      assert DistinctIds(tail) by {
        forall i, j | 0 <= i < j < |tail| ensures tail[i].id != tail[j].id {
          assert tail[i] == rows[i + 1] && tail[j] == rows[j + 1];
        }
      }
      InsertByAgeDistinct(x, tail);
      var rest := InsertByAge(x, tail);
      forall y | y in rest ensures y.id != rows[0].id {
        if y != x {
          var k :| 0 <= k < |tail| && tail[k] == y;
          assert rows[k + 1] == y;
        }
      }
      ConsKeepsDistinct(rows[0], rest);
    }
  }

  lemma ConsKeepsDistinct(row: DashboardRow, rows: seq<DashboardRow>)
    requires DistinctIds(rows)
    requires forall y :: y in rows ==> y.id != row.id
    ensures DistinctIds([row] + rows)
  {
    var all := [row] + rows;
    forall i, j | 0 <= i < j < |all| ensures all[i].id != all[j].id {
      if i == 0 {
        assert all[j] == rows[j - 1];
      } else {
        assert all[i] == rows[i - 1] && all[j] == rows[j - 1];
      }
    }
  }

  /** Sorting keeps one row per poll. */
  lemma {:induction false} SortKeepsDistinct(rows: seq<DashboardRow>)
    requires DistinctIds(rows)
    ensures DistinctIds(SortNewestFirst(rows))
  {
    if rows != [] {
      var tail := rows[1..];
      SortKeepsDistinct(tail);
      var sorted := SortNewestFirst(tail);
      forall y | y in sorted ensures y.id != rows[0].id {
        assert y in multiset(sorted);
        assert y in tail;
        var k :| 0 <= k < |tail| && tail[k] == y;
        assert rows[k + 1] == y;
      }
      InsertByAgeDistinct(rows[0], sorted);
    }
  }

  /** The body of `GET /user?email=...`. */
  function Dashboard(polls: seq<Poll>, options: seq<OptionRow>, votes: seq<VoteRow>,
                     email: string, now: int): seq<DashboardRow> {
    SortNewestFirst(RowsFor(polls, options, votes, email, now))
  }

  // ---------------------------------------------------------------- vote checks

  /** `Number.isInteger(parsedOptionId) && parsedOptionId > 0`; `None` stands for a non-integer. */
  predicate PositiveInteger(n: Option<int>) {
    n.Some? && n.value > 0
  }

  /** `req.ip || req.socket.remoteAddress`. */
  function ClientIp(reqIp: Option<string>, remoteAddress: Option<string>): (r: Option<string>)
    ensures Filled(r) <==> Filled(reqIp) || Filled(remoteAddress)
    ensures Filled(reqIp) ==> r == reqIp
    ensures !Filled(reqIp) ==> r == remoteAddress
  {
    if Filled(reqIp) then reqIp else remoteAddress
  }

  /** The three checks on the request itself, before the ledger is consulted. */
  predicate VoteInputsValid(optionNumber: Option<int>, voterHash: Option<string>, ip: Option<string>) {
    PositiveInteger(optionNumber) && Filled(voterHash) && Filled(ip)
  }

  /** The poll exists, has not expired and owns the option: every check before the INSERT passes. */
  predicate VoteAdmissible(polls: seq<Poll>, options: seq<OptionRow>, pollId: PollId,
                           optionNumber: Option<int>, voterHash: Option<string>,
                           ip: Option<string>, now: int) {
    && VoteInputsValid(optionNumber, voterHash, ip)
    && FindPoll(polls, pollId).Some?
    && !Expired(FindPoll(polls, pollId).value, now)
    && optionNumber.value <= MaxOptionId
    && HasOption(options, optionNumber.value, pollId)
  }

  /** The transaction commits: the poll id is new and no INSERT fails. */
  predicate Commits(polls: seq<Poll>, pollId: PollId, fault: Option<nat>, k: int) {
    !HasPoll(polls, pollId) && (fault.None? || fault.value > k)
  }

  /** How many option ids a rolled-back transaction draws from the sequence before its failing INSERT. */
  function SequenceAdvance(polls: seq<Poll>, pollId: PollId, fault: Option<nat>): nat {
    if HasPoll(polls, pollId) || fault.None? || fault == Some(0) then 0 else fault.value - 1
  }

  /**
   * The INSERT loop of `POST /` inside its transaction: option i is written
   * with the next id of the sequence and position i, until the statement
   * numbered by `fault` (option i is statement i + 1) fails.
   */
  method InsertOptions(rows: seq<OptionRow>, pollId: PollId, texts: seq<string>, firstId: int,
                       fault: Option<nat>) returns (written: seq<OptionRow>, next: int, failed: bool)
    requires fault != Some(0)
    ensures failed <==> fault.Some? && fault.value <= |texts|
    ensures !failed ==> written == rows + NewOptionRows(pollId, texts, firstId) && next == firstId + |texts|
    ensures failed ==> next == firstId + fault.value - 1
  {
    written, next := rows, firstId;
    var i := 0;
    while i < |texts|
      invariant 0 <= i <= |texts|
      invariant written == rows + NewOptionRows(pollId, texts[..i], firstId)
      invariant next == firstId + i
      invariant fault.None? || fault.value > i
    {
      if fault == Some(i + 1) {
        return written, next, true;
      }
      var row := OptionRow(next, pollId, texts[i], i);
      NewOptionRowsSnoc(pollId, texts, firstId, i);
      written := written + [row];
      next := next + 1;
      i := i + 1;
    }
    assert texts[..i] == texts;
    failed := false;
  }

  // ---------------------------------------------------------------- table invariant

  predicate UniquePollIds(polls: seq<Poll>) {
    forall i, j :: 0 <= i < j < |polls| ==> polls[i].id != polls[j].id
  }

  predicate IdsAscending(options: seq<OptionRow>) {
    forall i, j :: 0 <= i < j < |options| ==> options[i].id < options[j].id
  }

  predicate DensePositions(rows: seq<OptionRow>) {
    forall i :: 0 <= i < |rows| ==> rows[i].position == i
  }

  /** The (poll_id, voter_hash) uniqueness constraint. */
  predicate VoterKeysUnique(votes: seq<VoteRow>) {
    forall i, j :: 0 <= i < j < |votes| ==>
      votes[i].pollId != votes[j].pollId || votes[i].voterHash != votes[j].voterHash
  }

  /** Keys, foreign keys and the position numbering that every handler keeps. */
  ghost predicate TablesValid(polls: seq<Poll>, options: seq<OptionRow>, votes: seq<VoteRow>, nextOptionId: int) {
    && 1 <= nextOptionId
    && UniquePollIds(polls)
    && IdsAscending(options)
    && (forall o :: o in options ==> 0 < o.id < nextOptionId && HasPoll(polls, o.pollId))
    && (forall p :: p in polls ==> DensePositions(OptionsOf(options, p.id)))
    && (forall v :: v in votes ==> HasOption(options, v.optionId, v.pollId))
    && VoterKeysUnique(votes)
  }

  // ---------------------------------------------------------------- the store

  class PollStore {
    var polls: seq<Poll>
    var options: seq<OptionRow>
    var votes: seq<VoteRow>
    /** The next value of the options' id sequence. */
    var nextOptionId: int
    /** Every `poll_update` event emitted so far. */
    ghost var broadcasts: seq<Broadcast>
    /** HMAC-SHA256 of an address under this process's secret. */
    const hashIp: string -> string

    ghost predicate Valid()
      reads this
    {
      TablesValid(polls, options, votes, nextOptionId)
    }

    constructor (hashIp: string -> string)
      ensures Valid()
      ensures polls == [] && options == [] && votes == [] && broadcasts == []
      ensures nextOptionId == 1
      ensures this.hashIp == hashIp
    {
      this.hashIp := hashIp;
      polls, options, votes := [], [], [];
      nextOptionId := 1;
      broadcasts := [];
    }

    /**
     * `POST /`: the checks of `ValidateCreate`, then the transaction of
     * `InsertPoll`. `pollId` is the freshly generated UUID and `fault` names
     * the INSERT the storage rejects, if any (0: the poll row, i + 1: option i).
     */
    method Create(question: JsValue, optionsIn: JsValue, creatorEmail: Option<string>,
                  pollId: PollId, now: int, fault: Option<nat>) returns (res: Response)
      requires Valid()
      modifies this`polls, this`options, this`nextOptionId
      ensures Valid()
      ensures ValidateCreate(question, optionsIn).Err? ==>
        && res == Response(BAD_REQUEST, ErrorBody(ValidateCreate(question, optionsIn).error))
        && polls == old(polls) && options == old(options) && nextOptionId == old(nextOptionId)
      ensures ValidateCreate(question, optionsIn).Ok? ==>
        var np := ValidateCreate(question, optionsIn).value;
        && (res.status == CREATED <==> Commits(old(polls), pollId, fault, |np.options|))
        && (res.status == CREATED ==>
              && res == Response(CREATED, CreatedBody(pollId))
              && polls == old(polls) + [Poll(pollId, np.question, CreatorTag(creatorEmail), None, now)]
              && options == old(options) + NewOptionRows(pollId, np.options, old(nextOptionId))
              && nextOptionId == old(nextOptionId) + |np.options|)
        && (res.status != CREATED ==>
              && res == Response(SERVER_ERROR, ErrorBody(CreateFailed))
              && polls == old(polls) && options == old(options)
              && nextOptionId == old(nextOptionId) + SequenceAdvance(old(polls), pollId, fault))
    {
      var checked := ValidateCreate(question, optionsIn);
      if checked.Err? {
        return Response(BAD_REQUEST, ErrorBody(checked.error));
      }
      res := InsertPoll(checked.value, CreatorTag(creatorEmail), pollId, now, fault);
    }

    /** The transaction of `POST /`: BEGIN, the poll row, the option rows, then COMMIT or ROLLBACK. */
    method InsertPoll(np: NewPoll, creator: Option<string>, pollId: PollId, now: int, fault: Option<nat>)
      returns (res: Response)
      requires Valid()
      modifies this`polls, this`options, this`nextOptionId
      ensures Valid()
      ensures res.status == CREATED <==> Commits(old(polls), pollId, fault, |np.options|)
      ensures res.status == CREATED ==>
        && res == Response(CREATED, CreatedBody(pollId))
        && polls == old(polls) + [Poll(pollId, np.question, creator, None, now)]
        && options == old(options) + NewOptionRows(pollId, np.options, old(nextOptionId))
        && nextOptionId == old(nextOptionId) + |np.options|
      ensures res.status != CREATED ==>
        && res == Response(SERVER_ERROR, ErrorBody(CreateFailed))
        && polls == old(polls) && options == old(options)
        && nextOptionId == old(nextOptionId) + SequenceAdvance(old(polls), pollId, fault)
    {
      // BEGIN: the transaction works on its own copy of the option rows
      if HasPoll(polls, pollId) || fault == Some(0) {
        // ROLLBACK: nothing was written
        return Response(SERVER_ERROR, ErrorBody(CreateFailed));
      }
      var poll := Poll(pollId, np.question, creator, None, now);
      var rows, next, failed := InsertOptions(options, pollId, np.options, nextOptionId, fault);
      if failed {
        // ROLLBACK: the rows go, the id sequence keeps its advance
        AdvanceKeepsTablesValid(polls, options, votes, nextOptionId, next);
        nextOptionId := next;
        return Response(SERVER_ERROR, ErrorBody(CreateFailed));
      }
      CreateKeepsTablesValid(polls, options, votes, nextOptionId, poll, np.options);
      // COMMIT
      polls, options, nextOptionId := polls + [poll], rows, next;
      return Response(CREATED, CreatedBody(pollId));
    }

    /** `GET /user?email=...`. */
    method ListByCreator(email: JsValue, now: int) returns (res: Response)
      requires Valid()
      ensures !Truthy(email) || !email.JsString? <==> res == Response(BAD_REQUEST, ErrorBody(EmailRequired))
      ensures Truthy(email) && email.JsString? ==>
        res == Response(OK, DashboardBody(Dashboard(polls, options, votes, email.s, now)))
    {
      if !Truthy(email) || !email.JsString? {
        return Response(BAD_REQUEST, ErrorBody(EmailRequired));
      }
      return Response(OK, DashboardBody(Dashboard(polls, options, votes, email.s, now)));
    }

    /** `GET /:id`. */
    method GetPoll(pollId: PollId) returns (res: Response)
      requires Valid()
      ensures !HasPoll(polls, pollId) <==> res == Response(NOT_FOUND, ErrorBody(PollNotFound))
      ensures HasPoll(polls, pollId) ==>
        var p := FindPoll(polls, pollId).value;
        res == Response(OK, PollBody(pollId, p.question, p.expiresAt, Tally(options, votes, pollId)))
    {
      var found := FindPoll(polls, pollId);
      if found.None? {
        return Response(NOT_FOUND, ErrorBody(PollNotFound));
      }
      var p := found.value;
      return Response(OK, PollBody(p.id, p.question, p.expiresAt, Tally(options, votes, pollId)));
    }

    /**
     * `POST /:id/vote`. `optionNumber` is `Number(optionId)` when that is an
     * integer; `reqIp` and `remoteAddress` are the two server-side address
     * sources; `storageFault` says the INSERT fails for a reason other than
     * the uniqueness constraint.
     */
    method Vote(pollId: PollId, optionNumber: Option<int>, voterHash: Option<string>,
                reqIp: Option<string>, remoteAddress: Option<string>, now: int,
                storageFault: bool) returns (res: Response)
      requires Valid()
      modifies this`votes, this`broadcasts
      ensures Valid()
      ensures !PositiveInteger(optionNumber) ==> res == Response(BAD_REQUEST, ErrorBody(BadOptionId))
      ensures PositiveInteger(optionNumber) && !Filled(voterHash) ==>
        res == Response(BAD_REQUEST, ErrorBody(VoterHashRequired))
      ensures PositiveInteger(optionNumber) && Filled(voterHash) && !Filled(ClientIp(reqIp, remoteAddress)) ==>
        res == Response(BAD_REQUEST, ErrorBody(NoClientIp))
      ensures VoteInputsValid(optionNumber, voterHash, ClientIp(reqIp, remoteAddress)) ==>
        if !HasPoll(polls, pollId) then res == Response(NOT_FOUND, ErrorBody(PollNotFound))
        else if Expired(FindPoll(polls, pollId).value, now) then res == Response(FORBIDDEN, ErrorBody(PollExpired))
        else if optionNumber.value > MaxOptionId then res == Response(SERVER_ERROR, ErrorBody(VoteFailed))
        else if !HasOption(options, optionNumber.value, pollId) then res == Response(BAD_REQUEST, ErrorBody(InvalidOption))
        else if HasVoted(old(votes), pollId, voterHash.value) then res == Response(FORBIDDEN, ErrorBody(AlreadyVoted))
        else if storageFault then res == Response(SERVER_ERROR, ErrorBody(VoteFailed))
        else res.status == OK
      ensures res.status == OK ==>
        && VoteAdmissible(polls, options, pollId, optionNumber, voterHash, ClientIp(reqIp, remoteAddress), now)
        && !HasVoted(old(votes), pollId, voterHash.value) && !storageFault
        && votes == old(votes) + [VoteRow(optionNumber.value, pollId, voterHash.value,
                                          hashIp(ClientIp(reqIp, remoteAddress).value))]
        && res.body == VoteBody(true, Tally(options, votes, pollId))
        && broadcasts == old(broadcasts) + [Broadcast(pollId, Tally(options, votes, pollId))]
      ensures res.status != OK ==> votes == old(votes) && broadcasts == old(broadcasts)
    {
      if !PositiveInteger(optionNumber) {
        return Response(BAD_REQUEST, ErrorBody(BadOptionId));
      }
      if !Filled(voterHash) {
        return Response(BAD_REQUEST, ErrorBody(VoterHashRequired));
      }
      var ip := ClientIp(reqIp, remoteAddress);
      if !Filled(ip) {
        return Response(BAD_REQUEST, ErrorBody(NoClientIp));
      }
      var ipHash := hashIp(ip.value);
      var found := FindPoll(polls, pollId);
      if found.None? {
        return Response(NOT_FOUND, ErrorBody(PollNotFound));
      }
      if Expired(found.value, now) {
        return Response(FORBIDDEN, ErrorBody(PollExpired));
      }
      var optionId := optionNumber.value;
      if optionId > MaxOptionId {
        // the lookup rejects the parameter as out of range for the column
        return Response(SERVER_ERROR, ErrorBody(VoteFailed));
      }
      if !HasOption(options, optionId, pollId) {
        return Response(BAD_REQUEST, ErrorBody(InvalidOption));
      }
      // INSERT under the (poll_id, voter_hash) constraint
      if HasVoted(votes, pollId, voterHash.value) {
        return Response(FORBIDDEN, ErrorBody(AlreadyVoted));
      }
      if storageFault {
        return Response(SERVER_ERROR, ErrorBody(VoteFailed));
      }
      VoteKeepsTablesValid(polls, options, votes, nextOptionId, VoteRow(optionId, pollId, voterHash.value, ipHash));
      votes := votes + [VoteRow(optionId, pollId, voterHash.value, ipHash)];
      var updated := Tally(options, votes, pollId);
      broadcasts := broadcasts + [Broadcast(pollId, updated)];
      return Response(OK, VoteBody(true, updated));
    }

    /** `DELETE /:id`, cascading to the poll's options and votes. */
    method Delete(pollId: PollId) returns (res: Response)
      requires Valid()
      modifies this`polls, this`options, this`votes
      ensures Valid()
      ensures !HasPoll(old(polls), pollId) ==>
        && res == Response(NOT_FOUND, ErrorBody(PollNotFound))
        && polls == old(polls) && options == old(options) && votes == old(votes)
      ensures HasPoll(old(polls), pollId) ==>
        && res == Response(OK, DeletedBody(true))
        && polls == PollsWithout(old(polls), pollId)
        && options == OptionsNotOf(old(options), pollId)
        && votes == VotesNotOf(old(votes), pollId)
      ensures !HasPoll(polls, pollId)
    {
      if !HasPoll(polls, pollId) {
        return Response(NOT_FOUND, ErrorBody(PollNotFound));
      }
      DeleteKeepsTablesValid(polls, options, votes, nextOptionId, pollId);
      polls := PollsWithout(polls, pollId);
      options := OptionsNotOf(options, pollId);
      votes := VotesNotOf(votes, pollId);
      return Response(OK, DeletedBody(true));
    }
  }

  // ---------------------------------------------------------------- delete cascade

  function PollsWithout(polls: seq<Poll>, id: PollId): (r: seq<Poll>)
    ensures forall p :: p in r <==> p in polls && p.id != id
  {
    if polls == [] then []
    else
      var last := polls[|polls| - 1];
      assert polls == polls[..|polls| - 1] + [last];
      PollsWithout(polls[..|polls| - 1], id) + (if last.id != id then [last] else [])
  }

  function OptionsNotOf(options: seq<OptionRow>, id: PollId): (r: seq<OptionRow>)
    ensures forall o :: o in r <==> o in options && o.pollId != id
  {
    if options == [] then []
    else
      var last := options[|options| - 1];
      assert options == options[..|options| - 1] + [last];
      OptionsNotOf(options[..|options| - 1], id) + (if last.pollId != id then [last] else [])
  }

  function VotesNotOf(votes: seq<VoteRow>, id: PollId): (r: seq<VoteRow>)
    ensures forall v :: v in r <==> v in votes && v.pollId != id
  {
    if votes == [] then []
    else
      var last := votes[|votes| - 1];
      assert votes == votes[..|votes| - 1] + [last];
      VotesNotOf(votes[..|votes| - 1], id) + (if last.pollId != id then [last] else [])
  }

  // ---------------------------------------------------------------- invariant preservation

  lemma {:induction false} CreateKeepsTablesValid(polls: seq<Poll>, options: seq<OptionRow>, votes: seq<VoteRow>,
                               firstId: int, poll: Poll, texts: seq<string>)
    requires TablesValid(polls, options, votes, firstId)
    requires !HasPoll(polls, poll.id)
    ensures TablesValid(polls + [poll], options + NewOptionRows(poll.id, texts, firstId), votes, firstId + |texts|)
  {
    var added := NewOptionRows(poll.id, texts, firstId);
    var polls', options' := polls + [poll], options + added;
    assert UniquePollIds(polls') by {
      forall i | 0 <= i < |polls| ensures polls'[i].id != poll.id {
        assert polls[i] in polls;
      }
    }
    NewRowsExtendIds(options, firstId, added);
    NewRowsHavePoll(polls, options, poll, added);
    forall p | p in polls' ensures DensePositions(OptionsOf(options', p.id)) {
      NewRowsPositions(polls, options, firstId, poll, texts, p);
    }
    forall v | v in votes ensures HasOption(options', v.optionId, v.pollId) {
      var o :| o in options && o.id == v.optionId && o.pollId == v.pollId;
      assert o in options';
    }
  }

  lemma {:induction false} AdvanceKeepsTablesValid(polls: seq<Poll>, options: seq<OptionRow>, votes: seq<VoteRow>,
                                                   nextOptionId: int, advanced: int)
    requires TablesValid(polls, options, votes, nextOptionId)
    requires nextOptionId <= advanced
    ensures TablesValid(polls, options, votes, advanced)
  {
  }

  lemma {:induction false} NewRowsExtendIds(options: seq<OptionRow>, firstId: int, added: seq<OptionRow>)
    requires IdsAscending(options) && forall o :: o in options ==> 0 < o.id < firstId
    requires 1 <= firstId
    requires forall i :: 0 <= i < |added| ==> added[i].id == firstId + i
    ensures IdsAscending(options + added)
    ensures forall o :: o in options + added ==> 0 < o.id < firstId + |added|
  {
    var all := options + added;
    forall i, j | 0 <= i < j < |all| ensures all[i].id < all[j].id {
      if j >= |options| && i < |options| {
        assert all[i] in options;
      }
    }
    forall o | o in all ensures 0 < o.id < firstId + |added| {
      if o !in options {
        var k :| 0 <= k < |added| && added[k] == o;
      }
    }
  }

  lemma {:induction false} NewRowsHavePoll(polls: seq<Poll>, options: seq<OptionRow>, poll: Poll, added: seq<OptionRow>)
    requires forall o :: o in options ==> HasPoll(polls, o.pollId)
    requires forall o :: o in added ==> o.pollId == poll.id
    ensures forall o :: o in options + added ==> HasPoll(polls + [poll], o.pollId)
  {
    forall o | o in options + added ensures HasPoll(polls + [poll], o.pollId) {
      if o in options {
        var q :| q in polls && q.id == o.pollId;
        assert q in polls + [poll];
      } else {
        assert poll in polls + [poll];
      }
    }
  }

  lemma {:induction false} NewRowsPositions(polls: seq<Poll>, options: seq<OptionRow>,
                                            firstId: int, poll: Poll, texts: seq<string>, p: Poll)
    requires forall o :: o in options ==> HasPoll(polls, o.pollId)
    requires forall q :: q in polls ==> DensePositions(OptionsOf(options, q.id))
    requires !HasPoll(polls, poll.id)
    requires p in polls + [poll]
    ensures DensePositions(OptionsOf(options + NewOptionRows(poll.id, texts, firstId), p.id))
  {
    if p.id == poll.id {
      assert forall o :: o in options ==> o.pollId != poll.id;
      NewPollPositions(options, poll.id, texts, firstId);
    } else {
      assert p in polls;
      OtherPollPositions(options, poll.id, texts, firstId, p.id);
    }
  }

  /** The new poll's options are exactly the rows just inserted, at positions 0..k-1. */
  lemma {:induction false} NewPollPositions(options: seq<OptionRow>, pollId: PollId, texts: seq<string>, firstId: int)
    requires forall o :: o in options ==> o.pollId != pollId
    ensures DensePositions(OptionsOf(options + NewOptionRows(pollId, texts, firstId), pollId))
  {
    var added := NewOptionRows(pollId, texts, firstId);
    OptionsOfAppend(options, added, pollId);
    OptionsOfNone(options, pollId);
    OptionsOfAll(added, pollId);
  }

  /** Rows inserted for a new poll leave the options of every other poll as they were. */
  lemma {:induction false} OtherPollPositions(options: seq<OptionRow>, pollId: PollId, texts: seq<string>,
                                              firstId: int, other: PollId)
    requires other != pollId
    requires DensePositions(OptionsOf(options, other))
    ensures DensePositions(OptionsOf(options + NewOptionRows(pollId, texts, firstId), other))
  {
    var added := NewOptionRows(pollId, texts, firstId);
    OptionsOfAppend(options, added, other);
    OptionsOfNone(added, other);
  }

  lemma VoteKeepsTablesValid(polls: seq<Poll>, options: seq<OptionRow>, votes: seq<VoteRow>,
                             nextOptionId: int, v: VoteRow)
    requires TablesValid(polls, options, votes, nextOptionId)
    requires HasOption(options, v.optionId, v.pollId)
    requires !HasVoted(votes, v.pollId, v.voterHash)
    ensures TablesValid(polls, options, votes + [v], nextOptionId)
  {
    var votes' := votes + [v];
    forall i, j | 0 <= i < j < |votes'|
      ensures votes'[i].pollId != votes'[j].pollId || votes'[i].voterHash != votes'[j].voterHash
    {
      if j == |votes| {
        assert votes'[i] in votes;
      }
    }
  }

  lemma DeleteKeepsTablesValid(polls: seq<Poll>, options: seq<OptionRow>, votes: seq<VoteRow>,
                               nextOptionId: int, id: PollId)
    requires TablesValid(polls, options, votes, nextOptionId)
    ensures TablesValid(PollsWithout(polls, id), OptionsNotOf(options, id), VotesNotOf(votes, id), nextOptionId)
  {
    var polls', options', votes' := PollsWithout(polls, id), OptionsNotOf(options, id), VotesNotOf(votes, id);
    PollsWithoutUnique(polls, id);
    OptionsNotOfAscending(options, id);
    VotesNotOfUnique(votes, id);
    forall o | o in options' ensures HasPoll(polls', o.pollId) {
      var q :| q in polls && q.id == o.pollId;
      assert q in polls';
    }
    forall p | p in polls' ensures DensePositions(OptionsOf(options', p.id)) {
      OptionsOfNotOf(options, id, p.id);
    }
    forall v | v in votes' ensures HasOption(options', v.optionId, v.pollId) {
      var o :| o in options && o.id == v.optionId && o.pollId == v.pollId;
      assert o in options';
    }
  }

  lemma OptionsOfAppend(a: seq<OptionRow>, b: seq<OptionRow>, id: PollId)
    ensures OptionsOf(a + b, id) == OptionsOf(a, id) + OptionsOf(b, id)
  {
    if b != [] {
      assert (a + b)[..|a + b| - 1] == a + b[..|b| - 1];
      OptionsOfAppend(a, b[..|b| - 1], id);
    } else {
      assert a + b == a;
    }
  }

  lemma OptionsOfAll(rows: seq<OptionRow>, id: PollId)
    requires forall o :: o in rows ==> o.pollId == id
    ensures OptionsOf(rows, id) == rows
  {
    if rows != [] {
      OptionsOfAll(rows[..|rows| - 1], id);
      assert rows == rows[..|rows| - 1] + [rows[|rows| - 1]];
    }
  }

  lemma OptionsOfNone(rows: seq<OptionRow>, id: PollId)
    requires forall o :: o in rows ==> o.pollId != id
    ensures OptionsOf(rows, id) == []
  {
  }

  lemma {:induction false} OptionsOfNotOf(options: seq<OptionRow>, id: PollId, other: PollId)
    requires other != id
    ensures OptionsOf(OptionsNotOf(options, id), other) == OptionsOf(options, other)
  {
    if options != [] {
      var init := options[..|options| - 1];
      var last := options[|options| - 1];
      OptionsOfNotOf(init, id, other);
      var kept := OptionsNotOf(init, id);
      assert OptionsOf(options, other) == OptionsOf(init, other) + (if last.pollId == other then [last] else []);
      if last.pollId != id {
        assert OptionsNotOf(options, id) == kept + [last];
        OptionsOfAppend(kept, [last], other);
        assert OptionsOf([last], other) == (if last.pollId == other then [last] else []) by {
          assert [last][..0] == [];
        }
      } else {
        assert OptionsNotOf(options, id) == kept;
      }
    }
  }

  lemma PollsWithoutUnique(polls: seq<Poll>, id: PollId)
    requires UniquePollIds(polls)
    ensures UniquePollIds(PollsWithout(polls, id))
  {
    if polls != [] {
      var init := polls[..|polls| - 1];
      var last := polls[|polls| - 1];
      PollsWithoutUnique(init, id);
      var r := PollsWithout(init, id);
      forall p | p in r ensures p.id != last.id {
        var k :| 0 <= k < |init| && init[k] == p;
      }
    }
  }

  lemma OptionsNotOfAscending(options: seq<OptionRow>, id: PollId)
    requires IdsAscending(options)
    ensures IdsAscending(OptionsNotOf(options, id))
  {
    if options != [] {
      var init := options[..|options| - 1];
      var last := options[|options| - 1];
      OptionsNotOfAscending(init, id);
      var r := OptionsNotOf(init, id);
      forall o | o in r ensures o.id < last.id {
        var k :| 0 <= k < |init| && init[k] == o;
      }
    }
  }

  lemma VotesNotOfUnique(votes: seq<VoteRow>, id: PollId)
    requires VoterKeysUnique(votes)
    ensures VoterKeysUnique(VotesNotOf(votes, id))
  {
    if votes != [] {
      var init := votes[..|votes| - 1];
      var last := votes[|votes| - 1];
      VotesNotOfUnique(init, id);
      var r := VotesNotOf(init, id);
      forall v | v in r ensures v.pollId != last.pollId || v.voterHash != last.voterHash {
        var k :| 0 <= k < |init| && init[k] == v;
      }
    }
  }

  // ---------------------------------------------------------------- properties of the tally

  /** How many rows of `os` carry the id `optionId`. */
  function Occurrences(os: seq<OptionRow>, optionId: int): nat {
    if os == [] then 0
    else Occurrences(os[..|os| - 1], optionId) + (if os[|os| - 1].id == optionId then 1 else 0)
  }

  lemma {:induction false} AscendingIdsUnique(options: seq<OptionRow>, a: OptionRow, b: OptionRow)
    requires IdsAscending(options)
    requires a in options && b in options && a.id == b.id
    ensures a == b
  {
    var i :| 0 <= i < |options| && options[i] == a;
    var j :| 0 <= j < |options| && options[j] == b;
  }

  lemma {:induction false} OptionsOfAscending(options: seq<OptionRow>, pollId: PollId)
    requires IdsAscending(options)
    ensures IdsAscending(OptionsOf(options, pollId))
  {
    if options != [] {
      var init := options[..|options| - 1];
      var last := options[|options| - 1];
      OptionsOfAscending(init, pollId);
      forall o | o in OptionsOf(init, pollId) ensures o.id < last.id {
        var k :| 0 <= k < |init| && init[k] == o;
      }
    }
  }

  lemma {:induction false} OccurrencesAscending(os: seq<OptionRow>, optionId: int)
    requires IdsAscending(os)
    ensures Occurrences(os, optionId) == if exists o :: o in os && o.id == optionId then 1 else 0
  {
    if os != [] {
      var init := os[..|os| - 1];
      var last := os[|os| - 1];
      assert os == init + [last];
      OccurrencesAscending(init, optionId);
      if last.id == optionId {
        forall o | o in init ensures o.id != optionId {
          var k :| 0 <= k < |init| && init[k] == o;
        }
      }
    }
  }

  lemma {:induction false} CountVotesAppend(votes: seq<VoteRow>, v: VoteRow, optionId: int)
    ensures CountVotes(votes + [v], optionId) == CountVotes(votes, optionId) + (if v.optionId == optionId then 1 else 0)
  {
    assert (votes + [v])[..|votes|] == votes;
  }

  lemma {:induction false} TotalAfterVote(os: seq<OptionRow>, votes: seq<VoteRow>, v: VoteRow)
    ensures TotalVotes(TallyRows(os, votes + [v])) == TotalVotes(TallyRows(os, votes)) + Occurrences(os, v.optionId)
  {
    if os != [] {
      var init := os[..|os| - 1];
      TotalAfterVote(init, votes, v);
      CountVotesAppend(votes, v, os[|os| - 1].id);
      assert TallyRows(os, votes + [v])[..|os| - 1] == TallyRows(init, votes + [v]);
      assert TallyRows(os, votes)[..|os| - 1] == TallyRows(init, votes);
    }
  }

  lemma {:induction false} TotalWithoutVotes(os: seq<OptionRow>)
    ensures TotalVotes(TallyRows(os, [])) == 0
  {
    if os != [] {
      TotalWithoutVotes(os[..|os| - 1]);
      assert TallyRows(os, [])[..|os| - 1] == TallyRows(os[..|os| - 1], []);
    }
  }

  /**
   * `GET /:id` lists a poll's options in ascending position: the option at
   * position i is entry i of the tally, with the number of votes cast for it,
   * and every entry is one of the poll's options.
   */
  lemma {:induction false} TallyFollowsPositions(polls: seq<Poll>, options: seq<OptionRow>, votes: seq<VoteRow>,
                                                 nextOptionId: int, pollId: PollId)
    requires TablesValid(polls, options, votes, nextOptionId)
    requires HasPoll(polls, pollId)
    ensures var t := Tally(options, votes, pollId);
      forall o :: o in options && o.pollId == pollId ==>
        0 <= o.position < |t| && t[o.position] == OptionTally(o.id, o.text, CountVotes(votes, o.id))
    ensures var t, os := Tally(options, votes, pollId), OptionsOf(options, pollId);
      forall i :: 0 <= i < |t| ==>
        && os[i] in options && os[i].pollId == pollId && os[i].position == i
        && t[i] == OptionTally(os[i].id, os[i].text, CountVotes(votes, os[i].id))
  {
    var p :| p in polls && p.id == pollId;
    DenseTallyFollowsPositions(options, votes, pollId);
  }

  lemma {:induction false} DenseTallyFollowsPositions(options: seq<OptionRow>, votes: seq<VoteRow>, pollId: PollId)
    requires DensePositions(OptionsOf(options, pollId))
    ensures var t := Tally(options, votes, pollId);
      forall o :: o in options && o.pollId == pollId ==>
        0 <= o.position < |t| && t[o.position] == OptionTally(o.id, o.text, CountVotes(votes, o.id))
    ensures var t, os := Tally(options, votes, pollId), OptionsOf(options, pollId);
      forall i :: 0 <= i < |t| ==>
        && os[i] in options && os[i].pollId == pollId && os[i].position == i
        && t[i] == OptionTally(os[i].id, os[i].text, CountVotes(votes, os[i].id))
  {
    var os := OptionsOf(options, pollId);
    forall o | o in options && o.pollId == pollId
      ensures 0 <= o.position < |os| && os[o.position] == o
    {
      assert o in os;
      var k :| 0 <= k < |os| && os[k] == o;
    }
    forall i | 0 <= i < |os| ensures os[i] in options && os[i].pollId == pollId {
      assert os[i] in os;
    }
  }

  /**
   * The counts of a poll's tally add up to the number of votes stored for
   * the poll: every vote is counted once, under the option it names.
   */
  lemma {:induction false} TallySumsToPollVotes(options: seq<OptionRow>, votes: seq<VoteRow>, pollId: PollId)
    requires IdsAscending(options)
    requires forall v :: v in votes ==> HasOption(options, v.optionId, v.pollId)
    ensures TotalVotes(Tally(options, votes, pollId)) == PollVotes(votes, pollId)
  {
    var os := OptionsOf(options, pollId);
    if votes == [] {
      TotalWithoutVotes(os);
    } else {
      var init := votes[..|votes| - 1];
      var v := votes[|votes| - 1];
      assert votes == init + [v];
      TallySumsToPollVotes(options, init, pollId);
      TotalAfterVote(os, init, v);
      OptionsOfAscending(options, pollId);
      OccurrencesAscending(os, v.optionId);
      var o :| o in options && o.id == v.optionId && o.pollId == v.pollId;
      if v.pollId == pollId {
        assert o in os;
      } else {
        forall o' | o' in os ensures o'.id != v.optionId {
          if o'.id == v.optionId {
            AscendingIdsUnique(options, o, o');
          }
        }
      }
    }
  }

  /**
   * A stored vote raises the count of the option it names by one and leaves
   * every other count, every id and every text of the tally as it was.
   */
  lemma {:induction false} VoteRaisesOneCount(options: seq<OptionRow>, votes: seq<VoteRow>, v: VoteRow, pollId: PollId)
    requires IdsAscending(options)
    ensures var before, after := Tally(options, votes, pollId), Tally(options, votes + [v], pollId);
      && |after| == |before|
      && forall i :: 0 <= i < |after| ==>
           && after[i].id == before[i].id && after[i].text == before[i].text
           && after[i].votes == before[i].votes + (if before[i].id == v.optionId then 1 else 0)
    ensures HasOption(options, v.optionId, pollId) ==>
      TotalVotes(Tally(options, votes + [v], pollId)) == TotalVotes(Tally(options, votes, pollId)) + 1
  {
    var os := OptionsOf(options, pollId);
    forall i | 0 <= i < |os|
      ensures CountVotes(votes + [v], os[i].id) == CountVotes(votes, os[i].id) + (if os[i].id == v.optionId then 1 else 0)
    {
      CountVotesAppend(votes, v, os[i].id);
    }
    if HasOption(options, v.optionId, pollId) {
      TotalAfterVote(os, votes, v);
      OptionsOfAscending(options, pollId);
      OccurrencesAscending(os, v.optionId);
      var o :| o in options && o.id == v.optionId && o.pollId == pollId;
      assert o in os;
    }
  }

  /** A vote for an option of one poll leaves the tally of every other poll unchanged. */
  lemma {:induction false} VoteLeavesOtherPolls(options: seq<OptionRow>, votes: seq<VoteRow>, v: VoteRow, pollId: PollId)
    requires IdsAscending(options)
    requires HasOption(options, v.optionId, v.pollId)
    requires v.pollId != pollId
    ensures Tally(options, votes + [v], pollId) == Tally(options, votes, pollId)
  {
    var os := OptionsOf(options, pollId);
    var o :| o in options && o.id == v.optionId && o.pollId == v.pollId;
    forall i | 0 <= i < |os| ensures CountVotes(votes + [v], os[i].id) == CountVotes(votes, os[i].id) {
      assert os[i] in os;
      if os[i].id == v.optionId {
        AscendingIdsUnique(options, o, os[i]);
      }
      CountVotesAppend(votes, v, os[i].id);
    }
  }

  // ---------------------------------------------------------------- properties of the dashboard

  lemma {:induction false} SamePollId(polls: seq<Poll>, a: Poll, b: Poll)
    requires UniquePollIds(polls)
    requires a in polls && b in polls && a.id == b.id
    ensures a == b
  {
    var i :| 0 <= i < |polls| && polls[i] == a;
    var j :| 0 <= j < |polls| && polls[j] == b;
  }

  /**
   * `GET /user?email=...` answers exactly the polls tagged with that email,
   * newest first; each row's vote count is the number of votes stored for
   * the poll and its status is `Ended` exactly when the poll has an expiry
   * before `now`.
   */
  lemma {:induction false} DashboardListsCreatorPolls(polls: seq<Poll>, options: seq<OptionRow>, votes: seq<VoteRow>,
                                                      nextOptionId: int, email: string, now: int)
    requires TablesValid(polls, options, votes, nextOptionId)
    ensures var d := Dashboard(polls, options, votes, email, now);
      && NewestFirst(d)
      && (forall p :: p in polls ==> (RowOf(p, options, votes, now) in d <==> p.creatorEmail == Some(email)))
      && (forall r :: r in d ==> exists p :: p in polls && p.creatorEmail == Some(email) && r == RowOf(p, options, votes, now))
      && (forall r :: r in d ==> r.votes == PollVotes(votes, r.id))
      && (forall r :: r in d ==> (r.status == Ended <==> exists p :: p in polls && p.id == r.id && Expired(p, now)))
      && (forall i, j :: 0 <= i < j < |d| ==> d[i].id != d[j].id)
  {
    RowsForDistinct(polls, options, votes, email, now);
    SortKeepsDistinct(RowsFor(polls, options, votes, email, now));
    var rows := RowsFor(polls, options, votes, email, now);
    var d := Dashboard(polls, options, votes, email, now);
    assert forall r :: r in d <==> r in rows by {
      forall r ensures r in d <==> r in rows {
        assert r in d <==> r in multiset(d);
      }
    }
    forall p | p in polls && RowOf(p, options, votes, now) in d ensures p.creatorEmail == Some(email) {
      var q :| q in polls && q.creatorEmail == Some(email) && RowOf(p, options, votes, now) == RowOf(q, options, votes, now);
      SamePollId(polls, p, q);
    }
    forall r | r in d ensures r.votes == PollVotes(votes, r.id) {
      var q :| q in polls && q.creatorEmail == Some(email) && r == RowOf(q, options, votes, now);
      TallySumsToPollVotes(options, votes, q.id);
    }
    forall r | r in d ensures r.status == Ended <==> exists p :: p in polls && p.id == r.id && Expired(p, now) {
      var q :| q in polls && q.creatorEmail == Some(email) && r == RowOf(q, options, votes, now);
      forall p | p in polls && p.id == r.id ensures p == q {
        SamePollId(polls, p, q);
      }
    }
  }

  // ---------------------------------------------------------------- properties of the cascade

  lemma {:induction false} CountVotesNotOf(votes: seq<VoteRow>, id: PollId, optionId: int)
    requires forall v :: v in votes && v.optionId == optionId ==> v.pollId != id
    ensures CountVotes(VotesNotOf(votes, id), optionId) == CountVotes(votes, optionId)
  {
    if votes != [] {
      var init := votes[..|votes| - 1];
      var last := votes[|votes| - 1];
      assert votes == init + [last];
      CountVotesNotOf(init, id, optionId);
      assert CountVotes(votes, optionId) == CountVotes(init, optionId) + (if last.optionId == optionId then 1 else 0);
      if last.pollId != id {
        assert VotesNotOf(votes, id) == VotesNotOf(init, id) + [last];
        CountVotesAppend(VotesNotOf(init, id), last, optionId);
      } else {
        assert last in votes;
        assert VotesNotOf(votes, id) == VotesNotOf(init, id);
      }
    }
  }

  /**
   * Deleting a poll leaves no option and no vote of it behind, and leaves
   * the tally of every other poll exactly as it was.
   */
  lemma {:induction false} CascadeKeepsOtherPolls(polls: seq<Poll>, options: seq<OptionRow>, votes: seq<VoteRow>,
                                                  nextOptionId: int, id: PollId, other: PollId)
    requires TablesValid(polls, options, votes, nextOptionId)
    ensures OptionsOf(OptionsNotOf(options, id), id) == []
    ensures PollVotes(VotesNotOf(votes, id), id) == 0
    ensures other != id ==>
      Tally(OptionsNotOf(options, id), VotesNotOf(votes, id), other) == Tally(options, votes, other)
  {
    OptionsOfNone(OptionsNotOf(options, id), id);
    if other != id {
      OptionsOfNotOf(options, id, other);
      var os := OptionsOf(options, other);
      forall i | 0 <= i < |os| ensures CountVotes(VotesNotOf(votes, id), os[i].id) == CountVotes(votes, os[i].id) {
        assert os[i] in os;
        CascadeKeepsCount(options, votes, id, os[i]);
      }
    }
  }

  /** The votes for an option of another poll all survive the cascade. */
  lemma {:induction false} CascadeKeepsCount(options: seq<OptionRow>, votes: seq<VoteRow>, id: PollId, o: OptionRow)
    requires IdsAscending(options)
    requires forall v :: v in votes ==> HasOption(options, v.optionId, v.pollId)
    requires o in options && o.pollId != id
    ensures CountVotes(VotesNotOf(votes, id), o.id) == CountVotes(votes, o.id)
  {
    forall v | v in votes && v.optionId == o.id ensures v.pollId != id {
      var o' :| o' in options && o'.id == v.optionId && o'.pollId == v.pollId;
      AscendingIdsUnique(options, o', o);
    }
    CountVotesNotOf(votes, id, o.id);
  }
}
