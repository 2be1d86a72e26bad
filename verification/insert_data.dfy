/** The loader that turns rows of the organisations CSV export into
    `Organization` documents (Terminus/insert_data.py). Each list cell is split
    into pieces, each piece is cleaned, mapped through a table of spellings and
    looked up among the members of its enumeration; a name that is not a member
    ends the run. */
module InsertData {
  import opened Wrappers
  import opened Strings
  import opened Schema

  // ---------------------------------------------------------------------------
  // Cleaning and splitting cells

  /** The characters Python's `str.strip()` removes: Unicode white space. */
  predicate IsPySpace(c: char) {
    || c == ' ' || ('\t' <= c <= '\r') || ('\U{001C}' <= c <= '\U{001F}')
    || c == '\U{0085}' || c == '\U{00A0}' || c == '\U{1680}'
    || ('\U{2000}' <= c <= '\U{200A}') || c == '\U{2028}' || c == '\U{2029}'
    || c == '\U{202F}' || c == '\U{205F}' || c == '\U{3000}'
  }

  predicate IsBrace(c: char) { c == '{' || c == '}' }

  predicate IsQuote(c: char) { c == '"' }

  /** `split(",")` separates at every comma. */
  predicate NeverShielded(rest: string) { false }

  /** The look-ahead `(?![^(]*\))` of the web3 split, seen from the text after
      a comma: a `)` comes before any `(`, so the comma sits inside a
      parenthesis and does not separate. */
  predicate ClosesBeforeOpen(rest: string)
    decreases |rest|
  {
    rest != "" && rest[0] != '(' && (rest[0] == ')' || ClosesBeforeOpen(rest[1..]))
  }

  /** `ClosesBeforeOpen` is the regular expression's meaning: some `)` of the
      rest has no `(` before it. */
  lemma {:induction false} ClosesBeforeOpenMeaning(rest: string)
    ensures ClosesBeforeOpen(rest) <==> exists j :: ClosedAt(rest, j)
    decreases |rest|
  {
    if rest == "" {
    } else if rest[0] == ')' {
      assert ClosedAt(rest, 0);
    } else if rest[0] == '(' {
      forall j | 0 < j < |rest| ensures !ClosedAt(rest, j) {
        assert rest[..j][0] == '(';
      }
    } else {
      ClosesBeforeOpenMeaning(rest[1..]);
      if ClosesBeforeOpen(rest[1..]) {
        var j :| ClosedAt(rest[1..], j);
        assert rest[..j + 1] == [rest[0]] + rest[1..][..j];
        assert ClosedAt(rest, j + 1);
      } else {
        forall j | 0 < j < |rest| ensures !ClosedAt(rest, j) {
          assert rest[..j] == [rest[0]] + rest[1..][..j - 1];
          assert !ClosedAt(rest[1..], j - 1);
        }
      }
    }
  }

  /** `rest[j]` is a `)` with no `(` before it. */
  predicate ClosedAt(rest: string, j: int) {
    0 <= j < |rest| && rest[j] == ')' && '(' !in rest[..j]
  }

  /** `cell.strip("{}").split(",")`: the pieces of a list cell. */
  function ListPieces(cell: string): (pieces: seq<string>)
    ensures JoinCommas(pieces) == Trim(cell, IsBrace)
    ensures forall p :: p in pieces ==> ',' !in p
  {
    var body := Trim(cell, IsBrace);
    SplitJoin(body, NeverShielded);
    PlainPiecesHaveNoComma(body);
    SplitCommas(body, NeverShielded)
  }

  lemma {:induction false} PlainPiecesHaveNoComma(s: string)
    ensures forall p :: p in SplitCommas(s, NeverShielded) ==> ',' !in p
    decreases |s|
  {
    match CutIndex(s, NeverShielded)
    case None =>
    case Some(i) =>
      PlainPiecesHaveNoComma(s[i + 1..]);
  }

  /** `re.split(",(?![^(]*\))", cell.strip("{}"))`: the pieces of the web3
      cell, where a comma inside parentheses does not separate. */
  function Web3Pieces(cell: string): (pieces: seq<string>)
    ensures JoinCommas(pieces) == Trim(cell, IsBrace)
  {
    var body := Trim(cell, IsBrace);
    SplitJoin(body, ClosesBeforeOpen);
    SplitCommas(body, ClosesBeforeOpen)
  }

  /** `piece.strip().strip('"')`. */
  function Unquoted(piece: string): string {
    Trim(Trim(piece, IsPySpace), IsQuote)
  }

  // ---------------------------------------------------------------------------
  // Collecting a set from the pieces of a cell

  /** What one piece contributes to the set its loop builds: nothing (an empty
      piece), a member, the end of the loop (`break`), or a failed lookup of
      `name` (`KeyError`). */
  datatype Step<T> = Skip | Add(item: T) | Stop | Fail(name: string)

  /** The set the loop over `pieces` builds, or the name whose lookup fails. */
  function Collect<T(==)>(pieces: seq<string>, step: string -> Step<T>): Result<set<T>, string>
    decreases |pieces|
  {
    if pieces == [] then Ok({})
    else
      match step(pieces[0])
      case Skip => Collect(pieces[1..], step)
      case Stop => Ok({})
      case Fail(name) => Err(name)
      case Add(t) => Also(t, Collect(pieces[1..], step))
  }

  function Also<T(==)>(t: T, r: Result<set<T>, string>): Result<set<T>, string> {
    match r
    case Ok(s) => Ok({t} + s)
    case Err(e) => Err(e)
  }

  /** No piece before index `i` stops the loop or fails. */
  predicate Reached<T>(pieces: seq<string>, step: string -> Step<T>, i: int)
    requires 0 <= i <= |pieces|
  {
    forall j :: 0 <= j < i ==> !step(pieces[j]).Stop? && !step(pieces[j]).Fail?
  }

  /** Piece `i` is reached and adds a member. */
  predicate AddsAt<T>(pieces: seq<string>, step: string -> Step<T>, i: int) {
    0 <= i < |pieces| && Reached(pieces, step, i) && step(pieces[i]).Add?
  }

  /** Piece `i` is reached and its lookup fails. */
  predicate FailsAt<T>(pieces: seq<string>, step: string -> Step<T>, i: int) {
    0 <= i < |pieces| && Reached(pieces, step, i) && step(pieces[i]).Fail?
  }

  /** The loop fails exactly when a piece it reaches fails, with that piece's
      name; otherwise it holds exactly the members of the pieces it reaches. */
  lemma {:induction false} CollectMeaning<T>(pieces: seq<string>, step: string -> Step<T>)
    ensures Collect(pieces, step).Err? <==> exists i :: FailsAt(pieces, step, i)
    ensures Collect(pieces, step).Err? ==>
      exists i :: FailsAt(pieces, step, i) && step(pieces[i]).name == Collect(pieces, step).error
    ensures Collect(pieces, step).Ok? ==>
      forall t :: t in Collect(pieces, step).value <==>
        exists i :: AddsAt(pieces, step, i) && step(pieces[i]).item == t
    decreases |pieces|
  {
    if pieces != [] {
      var rest := pieces[1..];
      assert Reached(pieces, step, 0);
      match step(pieces[0])
      case Stop =>
        assert forall i :: 1 <= i <= |pieces| ==> !Reached(pieces, step, i);
      case Fail(name) =>
        assert FailsAt(pieces, step, 0);
      case Skip =>
        CollectMeaning(rest, step);
        ReachedShift(pieces, step);
        ShiftAdds(pieces, step);
        ShiftFails(pieces, step);
      case Add(t) =>
        CollectMeaning(rest, step);
        ReachedShift(pieces, step);
        ShiftAdds(pieces, step);
        ShiftFails(pieces, step);
        assert AddsAt(pieces, step, 0);
    }
  }

  lemma ReachedShift<T>(pieces: seq<string>, step: string -> Step<T>)
    requires pieces != [] && !step(pieces[0]).Stop? && !step(pieces[0]).Fail?
    ensures forall i :: 1 <= i <= |pieces| ==>
      (Reached(pieces, step, i) <==> Reached(pieces[1..], step, i - 1))
  {
    forall i | 1 <= i <= |pieces|
      ensures Reached(pieces, step, i) <==> Reached(pieces[1..], step, i - 1)
    {
      assert forall j :: 1 <= j < i ==> pieces[j] == pieces[1..][j - 1];
    }
  }

  lemma ShiftAdds<T>(pieces: seq<string>, step: string -> Step<T>)
    requires pieces != [] && !step(pieces[0]).Stop? && !step(pieces[0]).Fail?
    requires forall i :: 1 <= i <= |pieces| ==>
      (Reached(pieces, step, i) <==> Reached(pieces[1..], step, i - 1))
    ensures forall i :: 1 <= i < |pieces| ==>
      (AddsAt(pieces, step, i) <==> AddsAt(pieces[1..], step, i - 1))
    ensures forall i :: AddsAt(pieces[1..], step, i) ==> AddsAt(pieces, step, i + 1)
  {
    forall i | AddsAt(pieces[1..], step, i) ensures AddsAt(pieces, step, i + 1) {
      assert pieces[i + 1] == pieces[1..][i];
    }
  }

  lemma ShiftFails<T>(pieces: seq<string>, step: string -> Step<T>)
    requires pieces != [] && !step(pieces[0]).Stop? && !step(pieces[0]).Fail?
    requires forall i :: 1 <= i <= |pieces| ==>
      (Reached(pieces, step, i) <==> Reached(pieces[1..], step, i - 1))
    ensures forall i :: 1 <= i < |pieces| ==>
      (FailsAt(pieces, step, i) <==> FailsAt(pieces[1..], step, i - 1))
    ensures forall i :: FailsAt(pieces[1..], step, i) ==> FailsAt(pieces, step, i + 1)
  {
    forall i | FailsAt(pieces[1..], step, i) ensures FailsAt(pieces, step, i + 1) {
      assert pieces[i + 1] == pieces[1..][i];
    }
  }

  /** The loop that builds one set: `add` for each piece, `break` on a stop,
      and the failing lookup ends it. */
  method CollectSet<T(==)>(pieces: seq<string>, step: string -> Step<T>) returns (r: Result<set<T>, string>)
    ensures r == Collect(pieces, step)
  {
    var found: set<T> := {};
    var i := 0;
    assert pieces[0..] == pieces;
    match Collect(pieces, step) {
      case Ok(s) => assert found + s == s;
      case Err(_) =>
    }
    while i < |pieces|
      invariant 0 <= i <= |pieces|
      invariant Collect(pieces, step) == Joined(found, Collect(pieces[i..], step))
      decreases |pieces| - i
    {
      assert pieces[i..][0] == pieces[i] && pieces[i..][1..] == pieces[i + 1..];
      match step(pieces[i])
      case Skip =>
        i := i + 1;
      case Stop =>
        return Ok(found);
      case Fail(name) =>
        return Err(name);
      case Add(t) =>
        match Collect(pieces[i + 1..], step) {
          case Ok(s) => assert found + ({t} + s) == (found + {t}) + s;
          case Err(_) =>
        }
        found := found + {t};
        i := i + 1;
    }
    r := Ok(found);
  }

  function Joined<T(==)>(found: set<T>, r: Result<set<T>, string>): Result<set<T>, string> {
    match r
    case Ok(s) => Ok(found + s)
    case Err(e) => Err(e)
  }

  // ---------------------------------------------------------------------------
  // The four list cells

  /** The spellings of the impact-area cell the loader maps onto members
      before looking the name up; "Invest" and "Politics & activism" go to
      each other's member, as the loader does. */
  function ImpactAlias(v: string): Option<ImpactArea> {
    if v == "Social justice" then Some(ImpactArea.SocialJustice)
    else if v == "Food & Agriculture" || v == "Food & Ag." then Some(ImpactArea.FoodAg)
    else if v == "Invest" then Some(ImpactArea.Politicsactivism)
    else if v == "Politics & activism" then Some(ImpactArea.Investing)
    else if v == "Innovate" then Some(ImpactArea.Innovation)
    else None
  }

  /** One piece of the impact-area cell (row 4). */
  function ImpactStep(piece: string): (r: Step<ImpactArea>)
    ensures r.Skip? <==> piece == ""
    ensures !r.Stop?
    ensures r.Fail? ==> r.name == Unquoted(piece) && ImpactAlias(r.name).None? && ImpactAreaNamed(r.name).None?
    ensures r.Add? ==> ImpactAlias(Unquoted(piece)) == Some(r.item) || ImpactAreaName(r.item) == Unquoted(piece)
  {
    if piece == "" then Skip
    else
      var v := Unquoted(piece);
      match ImpactAlias(v)
      case Some(m) => Add(m)
      case None =>
        match ImpactAreaNamed(v)
        case Some(m) => Add(m)
        case None => Fail(v)
  }

  /** The spellings of the blockchain cell mapped onto members; "Not
      applicable" is not among them: it ends the loop. */
  function BlockchainAlias(b: string): Option<Blockchain> {
    if b == "Binance Smart Chain" then Some(Blockchain.BinanceSmartChain)
    else if b == "Regen Network" then Some(Blockchain.RegenNetwork)
    else if b == "Energy Web Chain" then Some(Blockchain.EnergyWebChain)
    else if b == "Hyperledger Fabric" then Some(Blockchain.HyperledgerFabric)
    else if b == "Zero Carbon" then Some(Blockchain.ZeroCarbon)
    else if b == "IXO" then Some(Blockchain.ixo)
    else if b == "Not found" || b == "Not sure / still deciding" then Some(Blockchain.Other)
    else None
  }

  const NotApplicable := "Not applicable"

  lemma NotApplicableUnaliased()
    ensures BlockchainAlias(NotApplicable).None?
  {
  }

  /** One piece of the blockchain cell (row 1): only white space is stripped. */
  function BlockchainStep(piece: string): (r: Step<Blockchain>)
    ensures r.Skip? <==> piece == ""
    ensures r.Stop? <==> piece != "" && Trim(piece, IsPySpace) == NotApplicable
    ensures r.Fail? ==> r.name == Trim(piece, IsPySpace) && BlockchainAlias(r.name).None? && BlockchainNamed(r.name).None?
    ensures r.Add? ==> BlockchainAlias(Trim(piece, IsPySpace)) == Some(r.item) || BlockchainName(r.item) == Trim(piece, IsPySpace)
  {
    if piece == "" then Skip
    else
      var b := Trim(piece, IsPySpace);
      NotApplicableUnaliased();
      match BlockchainAlias(b)
      case Some(m) => Add(m)
      case None =>
        if b == NotApplicable then Stop
        else match BlockchainNamed(b)
          case Some(m) => Add(m)
          case None => Fail(b)
  }

  /** The spellings of "Blockchain (L1, L2)" that stand for the `Blockchain`
      member, including the one a comma cut short. */
  predicate Web3Blockchain(v: string) {
    v == "Blockchain (L1, L2)" || v == "Blockchain (L1,L2)" || v == "Blockchain (L1"
  }

  /** One piece of the web3 cell (row 15). */
  function Web3Step(piece: string): (r: Step<Web3>)
    ensures r.Skip? <==> piece == ""
    ensures !r.Stop?
    ensures r.Fail? ==> r.name == Unquoted(piece) && !Web3Blockchain(r.name) && Web3Named(r.name).None?
    ensures r.Add? ==> (Web3Blockchain(Unquoted(piece)) && r.item == Web3.Blockchain) || Web3Name(r.item) == Unquoted(piece)
  {
    if piece == "" then Skip
    else
      var v := Unquoted(piece);
      if Web3Blockchain(v) then Add(Web3.Blockchain)
      else match Web3Named(v)
        case Some(m) => Add(m)
        case None => Fail(v)
  }

  /** The spellings of the topic cell mapped onto members. */
  function TopicAlias(t: string): Option<Topic> {
    if t == "inclusion and equality" then Some(Topic.inclusionequality)
    else if t == "Circular Economy" then Some(Topic.CircularEconomy)
    else if t == "Financial Inclusion" then Some(Topic.Financial_Inclusion)
    else if t == "origin & trace" then Some(Topic.Traceability)
    else if t == "Supply Chain" then Some(Topic.SupplyChain)
    else if t == "Move-to-earn" then Some(Topic.Movetoearn)
    else if t == "Work & Business" then Some(Topic.Work)
    else if t == "Food Forests" then Some(Topic.FoodForests)
    else if t == "Eco-Living" then Some(Topic.EcoLiving)
    else None
  }

  /** One piece of the topic cell (row 13): only white space is stripped. */
  function TopicStep(piece: string): (r: Step<Topic>)
    ensures r.Skip? <==> piece == ""
    ensures !r.Stop?
    ensures r.Fail? ==> r.name == Trim(piece, IsPySpace) && TopicAlias(r.name).None? && TopicNamed(r.name).None?
    ensures r.Add? ==> TopicAlias(Trim(piece, IsPySpace)) == Some(r.item) || TopicName(r.item) == Trim(piece, IsPySpace)
  {
    if piece == "" then Skip
    else
      var t := Trim(piece, IsPySpace);
      match TopicAlias(t)
      case Some(m) => Add(m)
      case None =>
        match TopicNamed(t)
        case Some(m) => Add(m)
        case None => Fail(t)
  }

  /** The loader files "Invest" under `Politicsactivism` and "Politics &
      activism" under `Investing`. */
  lemma ImpactAliasesCrossed()
    ensures ImpactStep("Invest").Add? && ImpactStep("Invest").item == ImpactArea.Politicsactivism
    ensures ImpactStep("Politics & activism").Add? && ImpactStep("Politics & activism").item == ImpactArea.Investing
  {
    InvestFiled();
    PoliticsFiled();
  }

  lemma InvestFiled()
    ensures ImpactStep("Invest") == Add(ImpactArea.Politicsactivism)
  {
    UnquotedKept("Invest");
    assert ImpactAlias("Invest") == Some(ImpactArea.Politicsactivism);
  }

  lemma PoliticsFiled()
    ensures ImpactStep("Politics & activism") == Add(ImpactArea.Investing)
  {
    UnquotedKept("Politics & activism");
    assert ImpactAlias("Politics & activism") == Some(ImpactArea.Investing);
  }

  /** A piece with no space or quote at either end is its own name. */
  lemma UnquotedKept(piece: string)
    requires piece != ""
    requires !IsPySpace(piece[0]) && !IsPySpace(piece[|piece| - 1])
    requires !IsQuote(piece[0]) && !IsQuote(piece[|piece| - 1])
    ensures Unquoted(piece) == piece
  {
    TrimKept(piece, IsPySpace);
    TrimKept(piece, IsQuote);
  }

  /** Everything after "Not applicable" in the blockchain cell is ignored:
      the loop's result is that of the pieces before it. */
  lemma {:induction false} StopIgnoresRest<T>(pieces: seq<string>, step: string -> Step<T>, k: nat)
    requires k < |pieces| && step(pieces[k]).Stop?
    ensures Collect(pieces, step) == Collect(pieces[..k], step)
    decreases k
  {
    if k > 0 {
      assert pieces[1..][k - 1] == pieces[k];
      StopIgnoresRest(pieces[1..], step, k - 1);
      assert pieces[..k][1..] == pieces[1..][..k - 1];
    }
  }

  // ---------------------------------------------------------------------------
  // Counts and dates

  predicate IsDigit(c: char) { '0' <= c <= '9' }

  /** `isdigit()` over ASCII digits: non-empty and digits only. */
  predicate AllDigits(s: string) {
    s != "" && forall i :: 0 <= i < |s| ==> IsDigit(s[i])
  }

  /** `int(s)` for a string of digits. */
  function DecimalValue(s: string): nat
    requires forall i :: 0 <= i < |s| ==> IsDigit(s[i])
  {
    if s == "" then 0
    else
      assert IsDigit(s[|s| - 1]);
      DecimalValue(s[..|s| - 1]) * 10 + (s[|s| - 1] as int - '0' as int)
  }

  /** The digits that write `n`, without leading zeros. */
  function Decimal(n: nat): (s: string)
    ensures AllDigits(s)
  {
    if n < 10 then ['0' + n as char] else Decimal(n / 10) + ['0' + (n % 10) as char]
  }

  /** Reading a written number gives the number back. */
  lemma {:induction false} DecimalRoundTrip(n: nat)
    ensures DecimalValue(Decimal(n)) == n
  {
    if n >= 10 {
      DecimalRoundTrip(n / 10);
      var s := Decimal(n);
      assert s[..|s| - 1] == Decimal(n / 10);
    }
  }

  /** The vote count read from a cell: its value when it is digits, else 0. */
  function Upvotes(cell: string): (n: nat)
    ensures n > 0 ==> AllDigits(cell)
  {
    if AllDigits(cell) then DecimalValue(cell) else 0
  }

  /** A written count is read back as itself. */
  lemma UpvotesOfDecimal(n: nat)
    ensures Upvotes(Decimal(n)) == n
  {
    DecimalRoundTrip(n);
  }

  /** A count the document stores: none for zero. */
  function StoredCount(n: nat): (r: Option<nat>)
    ensures r.None? <==> n == 0
    ensures r.Some? ==> r.value == n
  {
    if n == 0 then None else Some(n)
  }

  /** Seconds since `datetime.min`, midnight UTC on 1 January of year 1. */
  type Stamp = nat

  const DateMin: Stamp := 0

  /** The creation date of row 2: `datetime.min` when the cell is blank, the
      parsed time otherwise; `parse` stands for `strptime` with the format
      "%m/%d/%Y %I:%M %p" and `None` for the `ValueError` it raises. */
  function UtcDate(cell: string, parse: string -> Option<Stamp>): (r: Result<Stamp, RowError>)
    ensures cell == "" ==> r == Ok(DateMin)
    ensures cell != "" ==> (r.Ok? <==> parse(cell).Some?)
    ensures r.Ok? && cell != "" ==> r.value == parse(cell).value
  {
    if cell == "" then Ok(DateMin)
    else match parse(cell)
      case None => Err(BadDate(cell))
      case Some(t) => Ok(t)
  }

  /** The Python values the guard of `datecreated` compares: a set of impact
      areas and a `datetime`. Values of different types are never equal. */
  datatype PyValue = SetValue(areas: set<ImpactArea>) | DateValue(stamp: Stamp)

  /** The stored creation date as written: the guard tests whether the
      impact-area set is in the list holding `datetime.min`. A set is never
      a date, so the date is always stored. */
  function DateCreatedAsWritten(impactAreas: set<ImpactArea>, utc: Stamp): (r: Option<Stamp>)
    ensures r == Some(utc)
  {
    if SetValue(impactAreas) !in [DateValue(DateMin)] then Some(utc) else None
  }

  /** As written, a blank date cell is stored as `datetime.min`. */
  lemma BlankDateStoredAsWritten(impactAreas: set<ImpactArea>, parse: string -> Option<Stamp>)
    ensures DateCreatedAsWritten(impactAreas, UtcDate("", parse).value) == Some(DateMin)
  {
  }

  /** The stored creation date with the guard on the date cell itself, as
      the other optional fields are guarded on their own cell. */
  function DateCreated(cell: string, utc: Stamp): Option<Stamp> {
    if cell == "" then None else Some(utc)
  }

  /** A blank date cell stores no date; any date parsed from a non-blank cell
      is stored, `datetime.min` included. */
  lemma DateCreatedMeaning(cell: string, parse: string -> Option<Stamp>)
    requires UtcDate(cell, parse).Ok?
    ensures cell == "" <==> DateCreated(cell, UtcDate(cell, parse).value).None?
    ensures cell != "" ==> DateCreated(cell, UtcDate(cell, parse).value) == Some(parse(cell).value)
  {
  }

  // ---------------------------------------------------------------------------
  // The cells of the vote counts and of `reviewed`
  //
  // The sixteen columns follow the document's fields in the order the
  // Organization class declares them: cell 7 holds preJan20thUpvotes, cell 8
  // reviewed and cell 14 upvotes.

  /** A count field read from `cell`: stored when the cell holds a positive
      decimal number. */
  predicate CountOf(cell: string, c: Option<nat>) {
    && (c.Some? <==> AllDigits(cell) && DecimalValue(cell) != 0)
    && (c.Some? ==> c.value == DecimalValue(cell))
  }

  lemma StoredCountOf(cell: string)
    ensures CountOf(cell, StoredCount(Upvotes(cell)))
  {
  }

  /** `upvotes` as written: read from cell 7, the pre-January cell. */
  function UpvotesAsWritten(row: seq<string>): Option<nat>
    requires |row| >= 16
  {
    StoredCount(Upvotes(row[7]))
  }

  /** `upvotes` read from its own cell. */
  function UpvotesOf(row: seq<string>): (c: Option<nat>)
    requires |row| >= 16
    ensures CountOf(row[14], c)
  {
    StoredCountOf(row[14]);
    StoredCount(Upvotes(row[14]))
  }

  /** As written, the upvotes cell is never read: whatever number it holds,
      the stored count is the pre-January one, while the corrected reading
      stores that number. */
  lemma UpvotesCellIgnoredAsWritten(row: seq<string>, n: nat)
    requires |row| >= 16
    ensures UpvotesAsWritten(row[14 := Decimal(n)]) == StoredCount(Upvotes(row[7]))
    ensures UpvotesOf(row[14 := Decimal(n)]) == StoredCount(n)
  {
    UpvotesOfDecimal(n);
  }

  /** The number written in the upvotes cell is the stored count: none for
      zero, the number itself otherwise, whatever the pre-January cell
      holds. */
  lemma UpvotesStored(row: seq<string>, n: nat, pre: string)
    requires |row| >= 16 && row[14] == Decimal(n)
    ensures UpvotesOf(row[7 := pre]) == (if n == 0 then None else Some(n))
  {
    UpvotesOfDecimal(n);
    assert row[7 := pre][14] == row[14];
  }

  /** `reviewed` as written: kept only when the description cell is filled. */
  function ReviewedAsWritten(row: seq<string>): Option<string>
    requires |row| >= 16
  {
    if row[3] == "" then None else Some(row[8])
  }

  /** `reviewed` guarded on its own cell, as every other text field is. */
  function Reviewed(row: seq<string>): (r: Option<string>)
    requires |row| >= 16
    ensures r.None? <==> row[8] == ""
    ensures r.Some? ==> r.value == row[8]
  {
    NonBlank(row[8])
  }

  /** As written, a review beside a blank description is dropped, and a blank
      review beside a description is stored as the empty text. */
  lemma ReviewedAsWrittenFollowsDescription(row: seq<string>)
    requires |row| >= 16
    ensures row[3] == "" && row[8] != "" ==>
      ReviewedAsWritten(row) == None && Reviewed(row) == Some(row[8])
    ensures row[3] != "" && row[8] == "" ==>
      ReviewedAsWritten(row) == Some("") && Reviewed(row) == None
  {
  }

  /** The stored review follows the review cell alone: kept exactly when
      that cell is filled, whatever the description cell holds. */
  lemma ReviewedIgnoresDescription(row: seq<string>, description: string)
    requires |row| >= 16
    ensures Reviewed(row[3 := description]) == Reviewed(row)
    ensures Reviewed(row) == None <==> row[8] == ""
    ensures Reviewed(row) != None ==> Reviewed(row).value == row[8]
  {
  }

  // ---------------------------------------------------------------------------
  // One row

  /** How converting a row fails: a cell is missing (`IndexError`), a name is
      not a member of its enumeration (`KeyError`) or the date does not parse
      (`ValueError`). */
  datatype RowError =
    | ShortRow
    | UnknownImpactArea(name: string)
    | UnknownBlockchain(name: string)
    | UnknownWeb3(name: string)
    | UnknownTopic(name: string)
    | BadDate(text: string)

  datatype Organization = Organization(
    assignee: Option<string>,
    blockchainecosystem: Option<set<Blockchain>>,
    datecreated: Option<Stamp>,
    description: Option<string>,
    impactarea: Option<set<ImpactArea>>,
    logo: Option<string>,
    name: string,
    preJan20thUpvotes: Option<nat>,
    reviewed: Option<string>,
    submittedbyemail: Option<string>,
    submittedbyname: Option<string>,
    submittedbyowner: Option<string>,
    subscribed: Option<string>,
    topic: Option<set<Topic>>,
    upvotes: Option<nat>,
    web3: Option<set<Web3>>)

  /** A text field: none when the cell is blank. */
  function NonBlank(cell: string): (r: Option<string>)
    ensures r.None? <==> cell == ""
    ensures r.Some? ==> r.value == cell
  {
    if cell == "" then None else Some(cell)
  }

  /** A set field: none when nothing was collected. */
  function NonEmpty<T>(s: set<T>): (r: Option<set<T>>)
    ensures r.None? <==> s == {}
    ensures r.Some? ==> r.value == s
  {
    if |s| > 0 then Some(s) else None
  }

  /** The four list cells of a row convert. */
  predicate ListsConvert(row: seq<string>)
    requires |row| >= 16
  {
    && Collect(ListPieces(row[4]), ImpactStep).Ok?
    && Collect(ListPieces(row[1]), BlockchainStep).Ok?
    && Collect(Web3Pieces(row[15]), Web3Step).Ok?
    && Collect(ListPieces(row[13]), TopicStep).Ok?
  }

  /** The text fields hold their cells, none for a blank cell; `name` is the
      cell even when blank. */
  predicate TextFieldsOf(row: seq<string>, o: Organization)
    requires |row| >= 16
  {
    && o.assignee == NonBlank(row[0])
    && o.description == NonBlank(row[3])
    && o.logo == NonBlank(row[5])
    && o.name == row[6]
    && o.reviewed == NonBlank(row[8])
    && o.submittedbyemail == NonBlank(row[9])
    && o.submittedbyname == NonBlank(row[10])
    && o.submittedbyowner == NonBlank(row[11])
    && o.subscribed == NonBlank(row[12])
  }

  /** The set fields hold what their loops collect, none for an empty set. */
  predicate SetFieldsOf(row: seq<string>, o: Organization)
    requires |row| >= 16 && ListsConvert(row)
  {
    && o.impactarea == NonEmpty(Collect(ListPieces(row[4]), ImpactStep).value)
    && o.blockchainecosystem == NonEmpty(Collect(ListPieces(row[1]), BlockchainStep).value)
    && o.web3 == NonEmpty(Collect(Web3Pieces(row[15]), Web3Step).value)
    && o.topic == NonEmpty(Collect(ListPieces(row[13]), TopicStep).value)
  }

  /** Each vote count is read from its own cell and stored only when
      positive. */
  predicate CountsOf(row: seq<string>, o: Organization)
    requires |row| >= 16
  {
    CountOf(row[7], o.preJan20thUpvotes) && CountOf(row[14], o.upvotes)
  }

  /** A blank date cell stores no date; a parsed date is stored. */
  predicate DateOf(row: seq<string>, parse: string -> Option<Stamp>, o: Organization)
    requires |row| >= 16 && UtcDate(row[2], parse).Ok?
  {
    && (row[2] == "" ==> o.datecreated.None?)
    && (row[2] != "" ==> o.datecreated == parse(row[2]))
  }

  /** `e` is the exception converting `row` raises: the first step that
      fails, in the order the script takes them. Cells 0 to 4 are read, then
      the impact areas and the blockchains are looked up, then the remaining
      cells are read, then web3 and topics are looked up and the date is
      parsed. */
  predicate FailsWith(row: seq<string>, parse: string -> Option<Stamp>, e: RowError) {
    match e
    case ShortRow =>
      || |row| < 5
      || (&& |row| < 16
          && Collect(ListPieces(row[4]), ImpactStep).Ok?
          && Collect(ListPieces(row[1]), BlockchainStep).Ok?)
    case UnknownImpactArea(name) =>
      && |row| >= 5
      && Collect(ListPieces(row[4]), ImpactStep) == Err(name)
    case UnknownBlockchain(name) =>
      && |row| >= 5
      && Collect(ListPieces(row[4]), ImpactStep).Ok?
      && Collect(ListPieces(row[1]), BlockchainStep) == Err(name)
    case UnknownWeb3(name) =>
      && |row| >= 16
      && Collect(ListPieces(row[4]), ImpactStep).Ok?
      && Collect(ListPieces(row[1]), BlockchainStep).Ok?
      && Collect(Web3Pieces(row[15]), Web3Step) == Err(name)
    case UnknownTopic(name) =>
      && |row| >= 16
      && Collect(ListPieces(row[4]), ImpactStep).Ok?
      && Collect(ListPieces(row[1]), BlockchainStep).Ok?
      && Collect(Web3Pieces(row[15]), Web3Step).Ok?
      && Collect(ListPieces(row[13]), TopicStep) == Err(name)
    case BadDate(text) =>
      && |row| >= 16 && ListsConvert(row)
      && text == row[2] && text != "" && parse(text).None?
  }

  /** A row raises at most one exception, and only a row that does not
      convert raises one. */
  lemma FailsWithUnique(row: seq<string>, parse: string -> Option<Stamp>, e1: RowError, e2: RowError)
    requires FailsWith(row, parse, e1) && FailsWith(row, parse, e2)
    ensures e1 == e2
    ensures !RowConverts(row, parse)
  {
  }

  /** The document of one CSV row (after emoji removal). The row converts when
      it has all sixteen cells, every listed name is a member or a known
      spelling, and the date parses; the failure names the lookup that failed. */
  method ConvertRow(row: seq<string>, parse: string -> Option<Stamp>) returns (r: Result<Organization, RowError>)
    ensures r.Ok? <==> |row| >= 16 && ListsConvert(row) && UtcDate(row[2], parse).Ok?
    ensures r.Err? ==> FailsWith(row, parse, r.error)
    ensures r.Ok? ==> SetFieldsOf(row, r.value)
    ensures r.Ok? ==> TextFieldsOf(row, r.value)
    ensures r.Ok? ==> CountsOf(row, r.value)
    ensures r.Ok? ==> DateOf(row, parse, r.value)
  {
    if |row| < 5 {
      return Err(ShortRow);
    }
    var impact := CollectSet(ListPieces(row[4]), ImpactStep);
    if impact.Err? {
      return Err(UnknownImpactArea(impact.error));
    }
    var chains := CollectSet(ListPieces(row[1]), BlockchainStep);
    if chains.Err? {
      return Err(UnknownBlockchain(chains.error));
    }
    if |row| < 16 {
      return Err(ShortRow);
    }
    var web3 := CollectSet(Web3Pieces(row[15]), Web3Step);
    if web3.Err? {
      return Err(UnknownWeb3(web3.error));
    }
    var topics := CollectSet(ListPieces(row[13]), TopicStep);
    if topics.Err? {
      return Err(UnknownTopic(topics.error));
    }
    var utc := UtcDate(row[2], parse);
    if utc.Err? {
      return Err(utc.error);
    }
    var preJan := StoredCount(Upvotes(row[7]));
    StoredCountOf(row[7]);
    r := Ok(Organization(
      assignee := NonBlank(row[0]),
      blockchainecosystem := NonEmpty(chains.value),
      datecreated := DateCreated(row[2], utc.value),
      description := NonBlank(row[3]),
      impactarea := NonEmpty(impact.value),
      logo := NonBlank(row[5]),
      name := row[6],
      preJan20thUpvotes := preJan,
      reviewed := Reviewed(row),
      submittedbyemail := NonBlank(row[9]),
      submittedbyname := NonBlank(row[10]),
      submittedbyowner := NonBlank(row[11]),
      subscribed := NonBlank(row[12]),
      topic := NonEmpty(topics.value),
      upvotes := UpvotesOf(row),
      web3 := NonEmpty(web3.value)));
    assert TextFieldsOf(row, r.value);
    assert SetFieldsOf(row, r.value);
    assert CountsOf(row, r.value);
    assert DateOf(row, parse, r.value);
  }

  // ---------------------------------------------------------------------------
  // Chunks of rows

  /** The chunks `islice` hands out: `size` rows at a time, the last one
      shorter, none once the rows run out (and none at all for size 0). */
  function Chunks<T>(rows: seq<T>, size: nat): seq<seq<T>>
    decreases |rows|
  {
    if rows == [] || size == 0 then []
    else if |rows| <= size then [rows]
    else [rows[..size]] + Chunks(rows[size..], size)
  }

  function Flatten<T>(xss: seq<seq<T>>): seq<T> {
    if xss == [] then [] else xss[0] + Flatten(xss[1..])
  }

  /** With a positive size the chunks hold every row once and in order; none
      is empty, none is longer than `size`, and only the last is shorter. */
  lemma {:induction false} ChunksCover<T>(rows: seq<T>, size: nat)
    requires size > 0
    ensures Flatten(Chunks(rows, size)) == rows
    ensures forall k :: 0 <= k < |Chunks(rows, size)| ==> 0 < |Chunks(rows, size)[k]| <= size
    ensures forall k :: 0 <= k < |Chunks(rows, size)| - 1 ==> |Chunks(rows, size)[k]| == size
    decreases |rows|
  {
    if |rows| > size {
      var rest := Chunks(rows[size..], size);
      ChunksCover(rows[size..], size);
      var cs := Chunks(rows, size);
      assert cs == [rows[..size]] + rest;
      assert cs[1..] == rest;
      assert forall k :: 1 <= k < |cs| ==> cs[k] == rest[k - 1];
      assert rows == rows[..size] + rows[size..];
    }
  }

  /** The `orgs` dict after one chunk's writes at keys 0, 1, ...: the chunk's
      documents first, then the earlier documents at the keys the chunk did not
      reach (a dict keeps the place of a key it overwrites). */
  function Overwritten<T>(orgs: seq<T>, chunk: seq<T>): (r: seq<T>)
    ensures |r| == if |chunk| < |orgs| then |orgs| else |chunk|
  {
    if |chunk| < |orgs| then chunk + orgs[|chunk|..] else chunk
  }

  /** As written, a short chunk re-sends documents of the chunk before it:
      with `size + 1` rows the second insert carries the last row and then
      rows 1 to `size - 1` a second time. */
  lemma ResentAsWritten<T>(rows: seq<T>, size: nat)
    requires size > 1 && |rows| == size + 1
    ensures ResentBatches([], Chunks(rows, size)) == [rows[..size], [rows[size]] + rows[1..size]]
  {
    var cs := Chunks(rows, size);
    assert Chunks(rows[size..], size) == [rows[size..]];
    assert cs == [rows[..size], rows[size..]];
    var first := Overwritten([], rows[..size]);
    assert first == rows[..size];
    var second := Overwritten(first, rows[size..]);
    assert first[1..] == rows[1..size];
    assert second == [rows[size]] + rows[1..size];
    assert [rows[size..]][1..] == [];
    assert ResentBatches(first, [rows[size..]]) == [second];
    assert cs[1..] == [rows[size..]];
  }

  /** The batches the loop as written inserts, `orgs` holding `prev` before
      the first of `chunks`: each batch is the one before it overwritten by its
      chunk. */
  function ResentBatches<T>(prev: seq<T>, chunks: seq<seq<T>>): seq<seq<T>>
    decreases |chunks|
  {
    if chunks == [] then []
    else
      var orgs := Overwritten(prev, chunks[0]);
      [orgs] + ResentBatches(orgs, chunks[1..])
  }

  /** The chunk loop as written: `orgs` lives across chunks while `counter`
      restarts at 0, and each chunk inserts all of `orgs`. The batches are the
      documents each `insert_document` call receives. */
  method InsertChunksAsWritten<T>(rows: seq<T>, size: nat) returns (batches: seq<seq<T>>)
    ensures batches == ResentBatches([], Chunks(rows, size))
  {
    var orgs: seq<T> := [];
    batches := [];
    var start := 0;
    while start < |rows| && size > 0
      invariant 0 <= start <= |rows|
      invariant batches + ResentBatches(orgs, Chunks(rows[start..], size)) == ResentBatches([], Chunks(rows, size))
      decreases |rows| - start
    {
      var chunk, end := NextChunk(rows, start, size);
      ghost var rest := Chunks(rows[end..], size);
      assert ([chunk] + rest)[1..] == rest;
      orgs := WriteChunk(orgs, chunk);
      assert (batches + [orgs]) + ResentBatches(orgs, rest) == batches + ([orgs] + ResentBatches(orgs, rest));
      batches := batches + [orgs];
      start := end;
    }
    assert Chunks(rows[start..], size) == [];
    assert batches + [] == batches;
  }

  /** A row converts: all sixteen cells, known names and a date that parses. */
  predicate RowConverts(row: seq<string>, parse: string -> Option<Stamp>) {
    |row| >= 16 && ListsConvert(row) && UtcDate(row[2], parse).Ok?
  }

  /** `o` is the document a converting row stands for. */
  predicate ConvertedTo(row: seq<string>, parse: string -> Option<Stamp>, o: Organization) {
    && RowConverts(row, parse)
    && SetFieldsOf(row, o) && TextFieldsOf(row, o) && CountsOf(row, o) && DateOf(row, parse, o)
  }

  /** A batch holds exactly the documents of its chunk, in row order. */
  predicate BatchOf(chunk: seq<seq<string>>, parse: string -> Option<Stamp>, batch: seq<Organization>) {
    |batch| == |chunk| && forall i :: 0 <= i < |chunk| ==> ConvertedTo(chunk[i], parse, batch[i])
  }

  /** The load with `orgs` emptied for each chunk: the rows of each chunk are
      converted and the chunk's documents, and only they, are inserted, so
      every row goes in once (`ChunksCover`). The first row that does not
      convert ends the load before its chunk is inserted. */
  method Load(rows: seq<seq<string>>, size: nat, parse: string -> Option<Stamp>)
    returns (batches: seq<seq<Organization>>, failure: Option<RowError>, at: nat)
    ensures failure.None? ==> |batches| == |Chunks(rows, size)|
    ensures failure.Some? ==>
      && |batches| < |Chunks(rows, size)|
      && at < |Chunks(rows, size)[|batches|]|
      && !RowConverts(Chunks(rows, size)[|batches|][at], parse)
      && FailsWith(Chunks(rows, size)[|batches|][at], parse, failure.value)
      && forall j :: 0 <= j < at ==> RowConverts(Chunks(rows, size)[|batches|][j], parse)
    ensures forall k :: 0 <= k < |batches| ==> BatchOf(Chunks(rows, size)[k], parse, batches[k])
  {
    batches, failure, at := [], None, 0;
    var start := 0;
    ghost var done: seq<seq<seq<string>>> := [];
    while start < |rows| && size > 0
      invariant 0 <= start <= |rows|
      invariant done + Chunks(rows[start..], size) == Chunks(rows, size)
      invariant |batches| == |done|
      invariant forall k :: 0 <= k < |batches| ==> BatchOf(Chunks(rows, size)[k], parse, batches[k])
      decreases |rows| - start
    {
      var chunk, end := NextChunk(rows, start, size);
      assert |done| < |Chunks(rows, size)| && Chunks(rows, size)[|done|] == chunk;
      var docs, failed, row := ConvertChunk(chunk, parse);
      if failed.Some? {
        return batches, failed, row;
      }
      var orgs := WriteChunk([], docs);
      assert orgs == docs;
      AppendBatch(Chunks(rows, size), parse, batches, orgs);
      assert (done + [chunk]) + Chunks(rows[end..], size) == done + Chunks(rows[start..], size);
      batches, done := batches + [orgs], done + [chunk];
      start := end;
    }
    assert Chunks(rows[start..], size) == [];
    assert done + [] == done;
  }

  lemma AppendBatch(chunks: seq<seq<seq<string>>>, parse: string -> Option<Stamp>,
                    batches: seq<seq<Organization>>, batch: seq<Organization>)
    requires |batches| < |chunks|
    requires forall k :: 0 <= k < |batches| ==> BatchOf(chunks[k], parse, batches[k])
    requires BatchOf(chunks[|batches|], parse, batch)
    ensures forall k :: 0 <= k < |batches| + 1 ==> BatchOf(chunks[k], parse, (batches + [batch])[k])
  {
    forall k | 0 <= k < |batches| + 1
      ensures BatchOf(chunks[k], parse, (batches + [batch])[k])
    {
      if k < |batches| {
        assert (batches + [batch])[k] == batches[k];
      }
    }
  }

  /** `ConvertRow` seen through the document it stands for. */
  method ConvertOne(row: seq<string>, parse: string -> Option<Stamp>) returns (r: Result<Organization, RowError>)
    ensures r.Ok? ==> ConvertedTo(row, parse, r.value)
    ensures r.Err? <==> !RowConverts(row, parse)
    ensures r.Err? ==> FailsWith(row, parse, r.error)
  {
    r := ConvertRow(row, parse);
  }

  /** The rows of one chunk converted in order, or the error of the first row
      that does not convert. */
  method ConvertChunk(chunk: seq<seq<string>>, parse: string -> Option<Stamp>)
    returns (docs: seq<Organization>, failure: Option<RowError>, at: nat)
    ensures failure.None? ==> BatchOf(chunk, parse, docs)
    ensures failure.Some? ==>
      && at < |chunk| && !RowConverts(chunk[at], parse) && FailsWith(chunk[at], parse, failure.value)
      && forall j :: 0 <= j < at ==> RowConverts(chunk[j], parse)
  {
    docs, failure, at := [], None, 0;
    var i := 0;
    while i < |chunk|
      invariant 0 <= i <= |chunk| && |docs| == i
      invariant forall j :: 0 <= j < i ==> ConvertedTo(chunk[j], parse, docs[j])
    {
      var r := ConvertOne(chunk[i], parse);
      if r.Err? {
        return docs, Some(r.error), i;
      }
      AppendConverted(chunk, parse, docs, r.value);
      docs := docs + [r.value];
      i := i + 1;
    }
  }

  lemma AppendConverted(chunk: seq<seq<string>>, parse: string -> Option<Stamp>, docs: seq<Organization>, o: Organization)
    requires |docs| < |chunk|
    requires forall j :: 0 <= j < |docs| ==> ConvertedTo(chunk[j], parse, docs[j])
    requires ConvertedTo(chunk[|docs|], parse, o)
    ensures forall j :: 0 <= j < |docs| + 1 ==> ConvertedTo(chunk[j], parse, (docs + [o])[j])
  {
    forall j | 0 <= j < |docs| + 1
      ensures ConvertedTo(chunk[j], parse, (docs + [o])[j])
    {
      if j < |docs| {
        assert (docs + [o])[j] == docs[j];
      }
    }
  }

  /** The writes `orgs[counter] = doc` of one chunk, `counter` counting from 0. */
  method WriteChunk<T>(orgs: seq<T>, chunk: seq<T>) returns (written: seq<T>)
    ensures written == Overwritten(orgs, chunk)
  {
    written := orgs;
    var counter := 0;
    while counter < |chunk|
      invariant 0 <= counter <= |chunk|
      invariant written == Overwritten(orgs, chunk[..counter])
    {
      written := Store(written, counter, chunk[counter]);
      OverwrittenStep(orgs, chunk, counter);
      counter := counter + 1;
    }
    assert chunk[..counter] == chunk;
  }

  /** `orgs[counter] = doc` on a dict whose keys are 0 to `|orgs| - 1`. */
  function Store<T>(orgs: seq<T>, counter: nat, doc: T): (r: seq<T>)
    requires counter <= |orgs|
    ensures |r| == if counter < |orgs| then |orgs| else counter + 1
    ensures r[counter] == doc
    ensures forall i :: 0 <= i < |orgs| && i != counter ==> r[i] == orgs[i]
  {
    if counter < |orgs| then orgs[counter := doc] else orgs + [doc]
  }

  lemma OverwrittenStep<T>(before: seq<T>, chunk: seq<T>, counter: nat)
    requires counter < |chunk|
    ensures Store(Overwritten(before, chunk[..counter]), counter, chunk[counter])
      == Overwritten(before, chunk[..counter + 1])
  {
    var prefix := chunk[..counter + 1];
    assert prefix[..counter] == chunk[..counter];
  }

  /** The next chunk from `start`, and where the one after it starts. */
  method NextChunk<T>(rows: seq<T>, start: nat, size: nat) returns (chunk: seq<T>, end: nat)
    requires start < |rows| && size > 0
    ensures start < end <= |rows|
    ensures Chunks(rows[start..], size) == [chunk] + Chunks(rows[end..], size)
  {
    end := if start + size <= |rows| then start + size else |rows|;
    chunk := rows[start..end];
    var rest := rows[start..];
    assert rest != [];
    if |rest| <= size {
      assert chunk == rest;
      assert rows[end..] == [];
    } else {
      assert rest[..size] == chunk;
      assert rest[size..] == rows[end..];
    }
  }
}
