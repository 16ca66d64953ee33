/** crates/cli/utils.rs: the ticket, branch and URL string logic of the CLI,
    the resolution of a pull-request title and the selection of the pull
    request that belongs to a branch.

    The two regular expressions are matched by hand. A search tries each
    start position from the left and reports the first one at which the
    pattern matches; at a fixed start the greedy quantifiers are resolved the
    way a backtracking engine resolves them. Each matcher comes with a
    declarative description of what the pattern accepts, and lemmas tie the
    two together. */
module CliUtils {
  import opened Wrappers
  import opened Text
  import opened Assignables
  import opened TargetProcess

  /** The failures of the modelled functions: an `eyre!` message, an error of
      the TargetProcess client, or the message of a failed AWS call. */
  datatype CliError = Message(text: string) | Api(error: ApiError) | Fetch(message: string)

  // ---------------------------------------------------------------------
  // get_ticket_id_from_branch: `\w+\/(\d+)_.*`

  /** A match of the branch pattern that starts at p: word characters in
      [p, q), a '/' at q, digits in (q, r) and a '_' at r (the trailing `.*`
      accepts anything). The ticket id is b[q + 1..r]. */
  ghost predicate BranchShape(b: string, p: nat, q: nat, r: nat) {
    p < q && q + 1 < r < |b|
    && (forall k :: p <= k < q ==> IsWordChar(b[k]))
    && b[q] == '/'
    && (forall k :: q < k < r ==> IsDigit(b[k]))
    && b[r] == '_'
  }

  ghost predicate BranchMatchesAt(b: string, p: nat) {
    exists q, r :: BranchShape(b, p, q, r)
  }

  /** The pattern anchored at p. Neither '/' nor '_' can be swallowed by the
      run before it, so the greedy runs are the only candidates. */
  function BranchCaptureAt(b: string, p: nat): (c: Option<string>)
    requires p <= |b|
    ensures c.Some? ==>
              var q := WordRunEnd(b, p);
              q + 1 + |c.value| < |b| && BranchShape(b, p, q, q + 1 + |c.value|)
              && c.value == b[q + 1..q + 1 + |c.value|]
  {
    var q := WordRunEnd(b, p);
    if q == p || q >= |b| || b[q] != '/' then None
    else
      var r := DigitRunEnd(b, q + 1);
      if r == q + 1 || r >= |b| || b[r] != '_' then None
      else Some(b[q + 1..r])
  }

  /** Any match at p is the one the greedy runs find, so the capture is
      determined by the start position. */
  lemma BranchShapeCapture(b: string, p: nat, q: nat, r: nat)
    requires BranchShape(b, p, q, r)
    ensures BranchCaptureAt(b, p) == Some(b[q + 1..r])
  {
    WordRunEndCovers(b, p, q);
    DigitRunEndCovers(b, q + 1, r);
  }

  lemma BranchCaptureIffMatch(b: string, p: nat)
    requires p <= |b|
    ensures BranchCaptureAt(b, p).Some? <==> BranchMatchesAt(b, p)
  {
    if BranchMatchesAt(b, p) {
      var q, r :| BranchShape(b, p, q, r);
      BranchShapeCapture(b, p, q, r);
    }
  }

  /** The anchored matcher at every start position (none past the end). */
  function BranchCaptures(b: string): nat -> Option<string> {
    (p: nat) => if p <= |b| then BranchCaptureAt(b, p) else None
  }

  /** `get_ticket_id_from_branch`: the first capture group of the leftmost
      match, if any. */
  function GetTicketIdFromBranch(b: string): (id: Option<string>)
    ensures id.Some? ==> id.value != [] && AllDigits(id.value)
  {
    LeftmostAt(BranchCaptures(b), 0, |b|);
    Leftmost(BranchCaptures(b), 0, |b|)
  }

  /** The search finds nothing exactly when the pattern matches nowhere. */
  lemma TicketIdNone(b: string)
    ensures GetTicketIdFromBranch(b).None? <==> forall p :: 0 <= p <= |b| ==> !BranchMatchesAt(b, p)
  {
    var f := BranchCaptures(b);
    LeftmostNone(f, 0, |b|);
    forall p | 0 <= p <= |b| ensures f(p).Some? <==> BranchMatchesAt(b, p) {
      BranchCaptureIffMatch(b, p);
      assert f(p) == BranchCaptureAt(b, p);
    }
  }

  /** Otherwise it returns the digits of the leftmost match. */
  lemma TicketIdSome(b: string)
    ensures GetTicketIdFromBranch(b).Some? ==>
              exists p: nat, q: nat, r: nat :: BranchShape(b, p, q, r)
                && GetTicketIdFromBranch(b).value == b[q + 1..r]
                && forall p' :: 0 <= p' < p ==> !BranchMatchesAt(b, p')
  {
    var f := BranchCaptures(b);
    LeftmostAt(f, 0, |b|);
    if GetTicketIdFromBranch(b).Some? {
      var p := LeftmostIndex(f, 0, |b|);
      NoBranchMatchBefore(b);
      var c := BranchCaptureAt(b, p);
      assert f(p) == c;
      var q := WordRunEnd(b, p);
      var r := q + 1 + |c.value|;
      assert BranchShape(b, p, q, r) && GetTicketIdFromBranch(b).value == b[q + 1..r];
    }
  }

  lemma NoBranchMatchBefore(b: string)
    ensures forall p' :: 0 <= p' < LeftmostIndex(BranchCaptures(b), 0, |b|) ==> !BranchMatchesAt(b, p')
  {
    var f := BranchCaptures(b);
    LeftmostFirst(f, 0, |b|);
    forall p' | 0 <= p' < LeftmostIndex(f, 0, |b|) ensures !BranchMatchesAt(b, p') {
      BranchCaptureIffMatch(b, p');
      assert f(p') == BranchCaptureAt(b, p');
    }
  }

  /** A word, a '/', digits, a '_' and anything at all: the digits are the
      ticket id. */
  lemma TicketIdRoundTrip(w: string, n: string, s: string)
    requires w != [] && AllWordChars(w) && n != [] && AllDigits(n)
    ensures GetTicketIdFromBranch(w + "/" + n + "_" + s) == Some(n)
  {
    var b := w + "/" + n + "_" + s;
    var q, r := |w|, |w| + 1 + |n|;
    assert BranchShape(b, 0, q, r);
    BranchShapeCapture(b, 0, q, r);
    assert b[q + 1..r] == n;
    assert BranchCaptures(b)(0) == Some(n);
  }

  /** A branch without a '/' or without a '_' has no ticket id. */
  lemma NoTicketIdWithoutSlashAndUnderscore(b: string)
    requires '/' !in b || '_' !in b
    ensures GetTicketIdFromBranch(b) == None
  {
    LeftmostNone(BranchCaptures(b), 0, |b|);
  }

  lemma NoTicketIdExamples()
    ensures GetTicketIdFromBranch("feature/123") == None
    ensures GetTicketIdFromBranch("feature/no-id-here") == None
  {
    NoTicketIdWithoutSlashAndUnderscore("feature/123");
    NoTicketIdWithoutSlashAndUnderscore("feature/no-id-here");
  }

  /** Branches made by `get_branch` under a word prefix (the git-flow
      "feature/" prefix, say) give back the ticket's id, even when the slug
      of the name is empty. */
  lemma BranchNameRoundTrip(w: string, a: Assignable)
    requires w != [] && AllWordChars(w)
    ensures GetTicketIdFromBranch(w + "/" + BranchName(a)) == Some(Decimal(a.id))
  {
    TicketIdRoundTrip(w, Decimal(a.id), Slug(a.name));
    assert w + "/" + BranchName(a) == w + "/" + Decimal(a.id) + "_" + Slug(a.name);
  }

  // ---------------------------------------------------------------------
  // extract_id_from_url:
  // `https?:\/\/\w+\.tpondemand\.com\/entity\/(\d+)([\w+-]+)`

  const TpHost: string := ".tpondemand.com"
  /** What follows the account name, up to the id. */
  const EntityPath: string := TpHost + "/entity/"

  /** The class `[\w+-]`. */
  predicate IsTailChar(c: char) { IsWordChar(c) || c == '+' || c == '-' }

  /** `https?:\/\/` at p: where the host starts, if it matches. */
  function SchemeEnd(s: string, p: nat): (h0: Option<nat>)
    requires p <= |s|
    ensures h0.Some? ==> SchemeAt(s, p, h0.value)
    ensures h0.None? ==> forall h :: !SchemeAt(s, p, h)
  {
    assert p + 8 <= |s| ==> s[p..][..8] == s[p..p + 8];
    assert p + 7 <= |s| ==> s[p..][..7] == s[p..p + 7];
    if StartsWith(s[p..], "https://") then Some(p + 8)
    else if StartsWith(s[p..], "http://") then Some(p + 7)
    else None
  }

  ghost predicate SchemeAt(s: string, p: nat, h0: nat) {
    h0 <= |s| && p <= h0
    && ((h0 == p + 8 && s[p..h0] == "https://") || (h0 == p + 7 && s[p..h0] == "http://"))
  }

  /** A match of the URL pattern at p: the scheme up to h0, a non-empty word
      run up to the host suffix, "/entity/", the digits of group 1 in
      [d0, e) and at least one more character of `[\w+-]` at e. */
  ghost predicate UrlShape(s: string, p: nat, h0: nat, d0: nat, e: nat) {
    SchemeAt(s, p, h0) && h0 + |EntityPath| < d0 < e < |s|
    && (forall k :: h0 <= k < d0 - |EntityPath| ==> IsWordChar(s[k]))
    && s[d0 - |EntityPath|..d0] == EntityPath
    && (forall k :: d0 <= k < e ==> IsDigit(s[k]))
    && IsTailChar(s[e])
  }

  ghost predicate UrlMatchesAt(s: string, p: nat) {
    exists h0, d0, e :: UrlShape(s, p, h0, d0, e)
  }

  /** The pattern anchored at p. The scheme and the host are determined, as
      neither run can swallow what follows it. The greedy `\d+` first takes
      the whole digit run; when no tail character follows, it gives back its
      last digit to the tail class, which also accepts digits. */
  function UrlCaptureAt(s: string, p: nat): (c: Option<string>)
    requires p <= |s|
    ensures c.Some? ==> c.value != [] && AllDigits(c.value)
  {
    match IdStart(s, p)
    case None => None
    case Some(d0) => IdCapture(s, d0)
  }

  /** `https?:\/\/\w+\.tpondemand\.com\/entity\/` at p: where the id starts. */
  function IdStart(s: string, p: nat): (d0: Option<nat>)
    requires p <= |s|
    ensures d0.Some? ==> d0.value <= |s|
  {
    match SchemeEnd(s, p)
    case None => None
    case Some(h0) =>
      var h := WordRunEnd(s, h0);
      if h == h0 || !StartsWith(s[h..], EntityPath) then None
      else Some(h + |EntityPath|)
  }

  /** `(\d+)([\w+-]+)` at d0. */
  function IdCapture(s: string, d0: nat): (c: Option<string>)
    requires d0 <= |s|
    ensures c.Some? ==> c.value != [] && AllDigits(c.value)
  {
    var d := DigitRunEnd(s, d0);
    if d == d0 then None
    else if d < |s| && IsTailChar(s[d]) then Some(s[d0..d])
    else if d - d0 >= 2 then Some(s[d0..d - 1])
    else None
  }

  /** Whatever the matcher captures comes from a match of the pattern. */
  lemma UrlCaptureSound(s: string, p: nat)
    requires p <= |s|
    ensures UrlCaptureAt(s, p).Some? ==>
              exists h0: nat, d0: nat, e: nat :: UrlShape(s, p, h0, d0, e) && UrlCaptureAt(s, p).value == s[d0..e]
  {
    if UrlCaptureAt(s, p).Some? {
      var h0 := SchemeEnd(s, p).value;
      var h := WordRunEnd(s, h0);
      var d0 := IdStart(s, p).value;
      var d := DigitRunEnd(s, d0);
      assert s[h..][..|EntityPath|] == s[d0 - |EntityPath|..d0];
      if d < |s| && IsTailChar(s[d]) {
        assert UrlShape(s, p, h0, d0, d);
      } else {
        assert IsTailChar(s[d - 1]);
        assert UrlShape(s, p, h0, d0, d - 1);
      }
    }
  }

  /** Every match at p has the digits the matcher captures at their start,
      and none has more: the capture is the greedy one. */
  lemma UrlCaptureGreedy(s: string, p: nat, h0: nat, d0: nat, e: nat)
    requires UrlShape(s, p, h0, d0, e)
    ensures UrlCaptureAt(s, p).Some?
    ensures var c := UrlCaptureAt(s, p).value;
            e - d0 <= |c| && d0 + |c| <= |s| && c == s[d0..d0 + |c|]
  {
    SchemeEndAt(s, p, h0);
    var hostEnd := d0 - |EntityPath|;
    HostRunEnd(s, h0, hostEnd, d0);
    DigitRunEndCovers(s, d0, e);
  }

  /** The scheme that matches is the one `SchemeEnd` finds. */
  lemma SchemeEndAt(s: string, p: nat, h0: nat)
    requires SchemeAt(s, p, h0)
    ensures SchemeEnd(s, p) == Some(h0)
  {
    assert s[p..][..h0 - p] == s[p..h0];
    if h0 == p + 7 {
      assert s[p..h0][4] == ':';
      assert s[p..][4] == s[p..h0][4];
    }
  }

  /** The host run ends where the host suffix begins. */
  lemma HostRunEnd(s: string, h0: nat, hostEnd: nat, d0: nat)
    requires h0 <= hostEnd && hostEnd + |EntityPath| == d0 <= |s|
    requires forall k :: h0 <= k < hostEnd ==> IsWordChar(s[k])
    requires s[hostEnd..d0] == EntityPath
    ensures WordRunEnd(s, h0) == hostEnd
    ensures StartsWith(s[hostEnd..], EntityPath)
  {
    assert s[hostEnd] == s[hostEnd..d0][0];
    WordRunEndCovers(s, h0, hostEnd);
    assert s[hostEnd..][..|EntityPath|] == s[hostEnd..d0];
  }

  function UrlCaptures(s: string): nat -> Option<string> {
    (p: nat) => if p <= |s| then UrlCaptureAt(s, p) else None
  }

  /** `extract_id_from_url`: group 1 of the leftmost match (`is_match` and
      `captures` agree, so the guard changes nothing). */
  function ExtractIdFromUrl(s: string): (id: Option<string>)
    ensures id.Some? ==> id.value != [] && AllDigits(id.value)
  {
    LeftmostAt(UrlCaptures(s), 0, |s|);
    Leftmost(UrlCaptures(s), 0, |s|)
  }

  lemma UrlCaptureIffMatch(s: string, p: nat)
    requires p <= |s|
    ensures UrlCaptureAt(s, p).Some? <==> UrlMatchesAt(s, p)
  {
    UrlCaptureSound(s, p);
    if UrlMatchesAt(s, p) {
      var h0, d0, e :| UrlShape(s, p, h0, d0, e);
      UrlCaptureGreedy(s, p, h0, d0, e);
    }
  }

  /** None exactly when the pattern matches nowhere; otherwise the greedy
      capture of the leftmost match. */
  lemma ExtractIdNone(s: string)
    ensures ExtractIdFromUrl(s).None? <==> forall p :: 0 <= p <= |s| ==> !UrlMatchesAt(s, p)
  {
    var f := UrlCaptures(s);
    LeftmostNone(f, 0, |s|);
    forall p | 0 <= p <= |s| ensures f(p).Some? <==> UrlMatchesAt(s, p) {
      UrlCaptureIffMatch(s, p);
      assert f(p) == UrlCaptureAt(s, p);
    }
  }

  /** Otherwise it is the greedy capture of the leftmost match. */
  lemma ExtractIdSome(s: string)
    ensures ExtractIdFromUrl(s).Some? ==>
              exists p: nat :: p <= |s| && UrlMatchesAt(s, p) && ExtractIdFromUrl(s) == UrlCaptureAt(s, p)
                && forall p' :: 0 <= p' < p ==> !UrlMatchesAt(s, p')
  {
    var f := UrlCaptures(s);
    LeftmostAt(f, 0, |s|);
    if ExtractIdFromUrl(s).Some? {
      var p := LeftmostIndex(f, 0, |s|);
      NoUrlMatchBefore(s);
      assert f(p) == UrlCaptureAt(s, p);
      UrlCaptureIffMatch(s, p);
    }
  }

  lemma NoUrlMatchBefore(s: string)
    ensures forall p' :: 0 <= p' < LeftmostIndex(UrlCaptures(s), 0, |s|) ==> !UrlMatchesAt(s, p')
  {
    var f := UrlCaptures(s);
    LeftmostFirst(f, 0, |s|);
    forall p' | 0 <= p' < LeftmostIndex(f, 0, |s|) ensures !UrlMatchesAt(s, p') {
      UrlCaptureIffMatch(s, p');
      assert f(p') == UrlCaptureAt(s, p');
    }
  }

  /** Text without a ':' (a bare id, say) is no URL. */
  lemma NoUrlWithoutColon(s: string)
    requires ':' !in s
    ensures ExtractIdFromUrl(s) == None
  {
    var f := UrlCaptures(s);
    forall p | 0 <= p <= |s| ensures f(p).None? {
      if p + 4 < |s| {
        assert s[p..][4] == s[p + 4];
      }
      if p + 5 < |s| {
        assert s[p..][5] == s[p + 5];
      }
    }
    LeftmostNone(f, 0, |s|);
  }

  /** A TargetProcess entity URL: "https://", an account name, the host
      suffix, the id and whatever follows the id. */
  function EntityUrl(w: string, n: string, t: string): string {
    "https://" + w + EntityPath + n + t
  }

  /** In an entity URL the id starts right after the host suffix. */
  lemma EntityUrlIdStart(w: string, n: string, t: string)
    requires w != [] && AllWordChars(w)
    ensures var s := EntityUrl(w, n, t);
            var d0 := 8 + |w| + |EntityPath|;
            IdStart(s, 0) == Some(d0) && s[d0..] == n + t
  {
    var s := EntityUrl(w, n, t);
    var d0 := 8 + |w| + |EntityPath|;
    assert s[0..8] == "https://";
    SchemeEndAt(s, 0, 8);
    assert s[8..8 + |w|] == w;
    assert s[8 + |w|..d0] == EntityPath;
    HostRunEnd(s, 8, 8 + |w|, d0);
    assert s[d0..] == n + t;
  }

  /** The id's digit run ends where n ends when no digit follows it. */
  lemma EntityUrlDigitRun(w: string, n: string, t: string)
    requires w != [] && AllWordChars(w) && AllDigits(n)
    requires t == [] || !IsDigit(t[0])
    ensures var s := EntityUrl(w, n, t);
            var d0 := 8 + |w| + |EntityPath|;
            DigitRunEnd(s, d0) == d0 + |n| && s[d0..d0 + |n|] == n
  {
    var s := EntityUrl(w, n, t);
    var d0 := 8 + |w| + |EntityPath|;
    EntityUrlIdStart(w, n, t);
    assert s[d0..d0 + |n|] == (n + t)[..|n|] == n;
    if t != [] {
      assert s[d0 + |n|] == (n + t)[|n|] == t[0];
    }
    DigitRunEndCovers(s, d0, d0 + |n|);
  }

  /** The shape of the test URL: digits, then a slug that starts with a
      non-digit of `[\w+-]`. The id is exactly the digits. */
  lemma SlugUrlId(w: string, n: string, t: string)
    requires w != [] && AllWordChars(w) && n != [] && AllDigits(n)
    requires t != [] && IsTailChar(t[0]) && !IsDigit(t[0])
    ensures ExtractIdFromUrl(EntityUrl(w, n, t)) == Some(n)
  {
    var s := EntityUrl(w, n, t);
    EntityUrlIdStart(w, n, t);
    EntityUrlDigitRun(w, n, t);
    var d0 := 8 + |w| + |EntityPath|;
    assert s[d0 + |n|] == (n + t)[|n|];
    assert UrlCaptures(s)(0) == UrlCaptureAt(s, 0) == Some(n);
  }

  /** Only the leading scheme can start a match when the text has no ':'
      after the scheme's own. */
  lemma OnlyMatchAtStart(s: string)
    requires |s| >= 2 && s[1] == 't'
    requires forall i :: 6 <= i < |s| ==> s[i] != ':'
    ensures ExtractIdFromUrl(s) == UrlCaptureAt(s, 0)
  {
    var f := UrlCaptures(s);
    forall p | 1 <= p <= |s| ensures f(p).None? {
      if p < |s| {
        assert s[p..][0] == s[p];
      }
      if p + 4 < |s| {
        assert s[p..][4] == s[p + 4];
      }
      if p + 5 < |s| {
        assert s[p..][5] == s[p + 5];
      }
    }
    LeftmostNone(f, 1, |s|);
    assert f(0) == UrlCaptureAt(s, 0);
  }

  /** No ':' after the scheme of an entity URL whose tail has none. */
  lemma EntityUrlColons(w: string, n: string, t: string)
    requires AllWordChars(w) && AllDigits(n) && ':' !in t
    ensures var s := EntityUrl(w, n, t);
            |s| >= 2 && s[1] == 't' && forall i :: 6 <= i < |s| ==> s[i] != ':'
  {
    var s := EntityUrl(w, n, t);
    assert s == "https:" + ("//" + w + EntityPath + n + t);
    assert forall i :: 0 <= i < |EntityPath| ==> EntityPath[i] != ':';
    forall i | 6 <= i < |s| ensures s[i] != ':' {
      var u := "//" + w + EntityPath + n + t;
      assert s[i] == u[i - 6];
    }
  }

  /** With nothing after the digits, the pattern backtracks: the greedy run
      gives its last digit to `[\w+-]+`, so the id loses that digit, and a
      single digit does not match at all. */
  lemma DigitsOnlyUrlId(w: string, n: string)
    requires w != [] && AllWordChars(w) && n != [] && AllDigits(n)
    ensures ExtractIdFromUrl(EntityUrl(w, n, [])) == if |n| >= 2 then Some(n[..|n| - 1]) else None
  {
    var s := EntityUrl(w, n, []);
    EntityUrlIdStart(w, n, []);
    EntityUrlDigitRun(w, n, []);
    EntityUrlColons(w, n, []);
    OnlyMatchAtStart(s);
    var d0 := 8 + |w| + |EntityPath|;
    assert d0 + |n| == |s|;
    if |n| >= 2 {
      assert s[d0..d0 + |n| - 1] == n[..|n| - 1];
    }
  }

  /** The link `get_link` prints for an account "https://<w>.tpondemand.com"
      is not read back: an id of two or more digits comes back without its
      last digit, and a one-digit id gives None (after which the get-branch
      subcommand looks the whole URL up as an id). */
  lemma LinkLosesLastDigit(w: string, a: Assignable)
    requires w != [] && AllWordChars(w)
    ensures ExtractIdFromUrl(GetLink(a, "https://" + w + TpHost))
         == if a.id >= 10 then Some(Decimal(a.id / 10)) else None
  {
    assert GetLink(a, "https://" + w + TpHost) == EntityUrl(w, Decimal(a.id), []);
    DigitsOnlyUrlId(w, Decimal(a.id));
    DecimalDropLast(a.id);
  }

  /** A witness: ticket 42 is read back as ticket 4. */
  lemma LinkOfTicket42(w: string, a: Assignable)
    requires w != [] && AllWordChars(w) && a.id == 42
    ensures ExtractIdFromUrl(GetLink(a, "https://" + w + TpHost)) == Some("4")
  {
    LinkLosesLastDigit(w, a);
  }

  // ---------------------------------------------------------------------
  // The evidently intended URL pattern: `...\/entity\/(\d+)[\w+-]*`

  /** The id is the whole digit run, with or without a slug after it. */
  function IdCaptureFixed(s: string, d0: nat): (c: Option<string>)
    requires d0 <= |s|
    ensures c.Some? ==> c.value != [] && AllDigits(c.value)
  {
    var d := DigitRunEnd(s, d0);
    if d == d0 then None else Some(s[d0..d])
  }

  function UrlCaptureAtFixed(s: string, p: nat): (c: Option<string>)
    requires p <= |s|
    ensures c.Some? ==> c.value != [] && AllDigits(c.value)
  {
    match IdStart(s, p)
    case None => None
    case Some(d0) => IdCaptureFixed(s, d0)
  }

  function UrlCapturesFixed(s: string): nat -> Option<string> {
    (p: nat) => if p <= |s| then UrlCaptureAtFixed(s, p) else None
  }

  function ExtractIdFromUrlFixed(s: string): (id: Option<string>)
    ensures id.Some? ==> id.value != [] && AllDigits(id.value)
  {
    LeftmostAt(UrlCapturesFixed(s), 0, |s|);
    Leftmost(UrlCapturesFixed(s), 0, |s|)
  }

  /** Wherever the pattern as written captures an id, the intended one
      captures that id or the same id with one more digit: the only change is
      that the last digit is never given away. */
  lemma FixedExtendsAsWritten(s: string, p: nat)
    requires p <= |s|
    ensures UrlCaptureAt(s, p).Some? ==>
              var c, c' := UrlCaptureAt(s, p).value, UrlCaptureAtFixed(s, p);
              c'.Some? && |c| <= |c'.value| <= |c| + 1 && c'.value[..|c|] == c
  {
  }

  /** The intended pattern reads every printed link back to its ticket. */
  lemma LinkRoundTripFixed(w: string, a: Assignable)
    requires w != [] && AllWordChars(w)
    ensures ExtractIdFromUrlFixed(GetLink(a, "https://" + w + TpHost)) == Some(Decimal(a.id))
  {
    var s := EntityUrl(w, Decimal(a.id), []);
    assert GetLink(a, "https://" + w + TpHost) == s;
    EntityUrlIdStart(w, Decimal(a.id), []);
    EntityUrlDigitRun(w, Decimal(a.id), []);
    var d0 := 8 + |w| + |EntityPath|;
    assert UrlCapturesFixed(s)(0) == UrlCaptureAtFixed(s, 0) == Some(s[d0..d0 + |Decimal(a.id)|]);
  }

  /** ... and still reads the test's slug URLs as before. */
  lemma SlugUrlIdFixed(w: string, n: string, t: string)
    requires w != [] && AllWordChars(w) && n != [] && AllDigits(n)
    requires t != [] && IsTailChar(t[0]) && !IsDigit(t[0])
    ensures ExtractIdFromUrlFixed(EntityUrl(w, n, t)) == Some(n)
  {
    var s := EntityUrl(w, n, t);
    EntityUrlIdStart(w, n, t);
    EntityUrlDigitRun(w, n, t);
    assert UrlCapturesFixed(s)(0) == UrlCaptureAtFixed(s, 0) == Some(n);
  }

  // ---------------------------------------------------------------------
  // branch_to_title

  /** `branch.split('/').last()`: the text after the last '/'. */
  function LastSegment(b: string): (seg: string)
    ensures '/' !in seg
    ensures |seg| <= |b| && b[|b| - |seg|..] == seg
    ensures |seg| == |b| || b[|b| - |seg| - 1] == '/'
  {
    LastPartIsSuffix(b, '/');
    Split(b, '/')[|Split(b, '/')| - 1]
  }

  /** The first digit at or after i, or |s| when there is none. */
  function FirstDigitFrom(s: string, i: nat): (k: nat)
    requires i <= |s|
    ensures i <= k <= |s|
    ensures forall m :: i <= m < k ==> !IsDigit(s[m])
    ensures k < |s| ==> IsDigit(s[k])
    decreases |s| - i
  {
    if i == |s| || IsDigit(s[i]) then i else FirstDigitFrom(s, i + 1)
  }

  /** [i, j) is the first maximal run of digits of s ([|s|, |s|) when s has
      no digit). */
  ghost predicate FirstDigitRun(s: string, i: nat, j: nat) {
    i <= j <= |s|
    && (forall k :: 0 <= k < i ==> !IsDigit(s[k]))
    && (forall k :: i <= k < j ==> IsDigit(s[k]))
    && (j < |s| ==> !IsDigit(s[j]))
    && (i < |s| ==> i < j)
  }

  /** `Regex::new(r"\d+").replace(s, "")`: `replace` rewrites only the
      leftmost match, which the greedy `\d+` makes the whole first run. */
  function DeleteFirstDigitRun(s: string): (r: string)
    ensures exists i: nat, j: nat :: FirstDigitRun(s, i, j) && r == s[..i] + s[j..]
  {
    var i := FirstDigitFrom(s, 0);
    var j := DigitRunEnd(s, i);
    assert FirstDigitRun(s, i, j);
    s[..i] + s[j..]
  }

  /** There is only one first run, so the deletion is determined. */
  lemma FirstDigitRunUnique(s: string, i: nat, j: nat, i': nat, j': nat)
    requires FirstDigitRun(s, i, j) && FirstDigitRun(s, i', j')
    ensures i == i' && j == j'
  {
    assert i < |s| ==> IsDigit(s[i]);
    assert i' < |s| ==> IsDigit(s[i']);
    assert j < |s| ==> !IsDigit(s[j]);
    assert j' < |s| ==> !IsDigit(s[j']);
  }

  /** The run that `DeleteFirstDigitRun` deletes. */
  lemma DeletedRun(s: string, i: nat, j: nat)
    requires FirstDigitRun(s, i, j)
    ensures DeleteFirstDigitRun(s) == s[..i] + s[j..]
  {
    FirstDigitRunUnique(s, i, j, FirstDigitFrom(s, 0), DigitRunEnd(s, FirstDigitFrom(s, 0)));
  }

  /** Text without digits is left alone. */
  lemma DeleteWithoutDigits(s: string)
    requires forall k :: 0 <= k < |s| ==> !IsDigit(s[k])
    ensures DeleteFirstDigitRun(s) == s
  {
    DeletedRun(s, |s|, |s|);
  }

  /** Deleting the first run removes a leading run of digits. */
  lemma DeleteLeadingDigits(n: string, t: string)
    requires n != [] && AllDigits(n) && (t == [] || !IsDigit(t[0]))
    ensures DeleteFirstDigitRun(n + t) == t
  {
    var y := n + t;
    assert FirstDigitRun(y, 0, |n|);
    DeletedRun(y, 0, |n|);
    assert y[|n|..] == t;
  }

  /** The title before capitalisation: the last segment without its first
      digit run, with every '_' made a space, and trimmed. */
  function SanitizedTitle(b: string): string {
    Trim(ReplaceAll(DeleteFirstDigitRun(LastSegment(b)), "_", " "))
  }

  /** `branch_to_title`. `split_at(1)` panics on an empty title, which the
      precondition rules out. */
  function BranchToTitle(b: string): (t: string)
    requires SanitizedTitle(b) != []
    ensures |t| == |SanitizedTitle(b)| && !('a' <= t[0] <= 'z')
    ensures t[0] == UpperChar(SanitizedTitle(b)[0])
    ensures forall i :: 1 <= i < |t| ==> t[i] == SanitizedTitle(b)[i]
  {
    var x := SanitizedTitle(b);
    [UpperChar(x[0])] + x[1..]
  }

  /** No '_' and no '/' remain in a sanitized title, and its ends are not
      blank. */
  lemma TrimmedChars(y: string)
    requires '_' !in y && '/' !in y
    ensures var x := Trim(y);
            '_' !in x && '/' !in x
            && (x != [] ==> !IsWhitespace(x[0]) && !IsWhitespace(x[|x| - 1]))
  {
    TrimSlice(y);
    TrimAvoids(y, '_');
    TrimAvoids(y, '/');
  }

  lemma SanitizedTitleChars(b: string)
    ensures var x := SanitizedTitle(b);
            '_' !in x && '/' !in x
            && (x != [] ==> !IsWhitespace(x[0]) && !IsWhitespace(x[|x| - 1]))
  {
    SpacedSegmentChars(b);
    TrimmedChars(ReplaceAll(DeleteFirstDigitRun(LastSegment(b)), "_", " "));
  }

  lemma SpacedSegmentChars(b: string)
    ensures var y := ReplaceAll(DeleteFirstDigitRun(LastSegment(b)), "_", " ");
            '_' !in y && '/' !in y
  {
    var seg := LastSegment(b);
    var i := FirstDigitFrom(seg, 0);
    var j := DigitRunEnd(seg, i);
    var d := DeleteFirstDigitRun(seg);
    assert d == seg[..i] + seg[j..];
    assert '/' !in d by {
      forall k | 0 <= k < |d| ensures d[k] != '/' {
        if k < i {
          assert d[k] == seg[k];
        } else {
          assert d[k] == seg[k - i + j];
        }
      }
    }
    ReplaceCharPointwise(d, '_', ' ');
    var y := ReplaceAll(d, "_", " ");
    forall k | 0 <= k < |y| ensures y[k] != '_' && y[k] != '/' {
    }
  }

  /** The title has no '_' and no '/', is not blank at either end and does
      not start with a lower-case letter; its first character is the
      sanitized title's, upper-cased. */
  lemma TitleProperties(b: string)
    requires SanitizedTitle(b) != []
    ensures var t := BranchToTitle(b);
            '_' !in t && '/' !in t && !IsWhitespace(t[0]) && !IsWhitespace(t[|t| - 1]) && !('a' <= t[0] <= 'z')
            && t[0] == UpperChar(SanitizedTitle(b)[0])
  {
    SanitizedTitleChars(b);
    var x := SanitizedTitle(b);
    var t := BranchToTitle(b);
    assert t[0] == UpperChar(x[0]);
    assert forall i :: 0 <= i < |t| ==> t[i] != '_' && t[i] != '/';
  }

  /** The stages of `SanitizedTitle`, one at a time. */
  lemma SanitizedStages(b: string, seg: string, d: string, y: string)
    requires LastSegment(b) == seg && DeleteFirstDigitRun(seg) == d
    requires ReplaceAll(d, "_", " ") == y
    ensures SanitizedTitle(b) == Trim(y)
  {
  }

  /** A branch made of any prefix, "/", the ticket digits, "_" and a
      non-empty name that neither starts nor ends with '_' or a blank: its
      title is the name with spaces for underscores, capitalised. The test
      branch "feature/115068_translate_report_type_payout_transactions" is
      such a branch. */
  lemma TicketBranchTitle(w: string, n: string, x: string)
    requires n != [] && AllDigits(n) && x != [] && '/' !in x
    requires x[0] != '_' && !IsWhitespace(x[0]) && x[|x| - 1] != '_' && !IsWhitespace(x[|x| - 1])
    ensures SanitizedTitle(w + "/" + n + "_" + x) == ReplaceAll(x, "_", " ")
    ensures BranchToTitle(w + "/" + n + "_" + x)
         == [UpperChar(x[0])] + ReplaceAll(x, "_", " ")[1..]
  {
    TicketBranchSanitized(w, n, x);
    var xs := ReplaceAll(x, "_", " ");
    ReplaceCharPointwise(x, '_', ' ');
    assert xs[0] == x[0];
  }

  lemma TicketBranchSanitized(w: string, n: string, x: string)
    requires n != [] && AllDigits(n) && x != [] && '/' !in x
    requires x[0] != '_' && !IsWhitespace(x[0]) && x[|x| - 1] != '_' && !IsWhitespace(x[|x| - 1])
    ensures SanitizedTitle(w + "/" + n + "_" + x) == ReplaceAll(x, "_", " ")
  {
    TicketBranchSegment(w, n, x);
    TicketDigitsDeleted(n, x);
    ReplaceAllHead("_", x, " ");
    SanitizedStages(w + "/" + n + "_" + x, n + "_" + x, "_" + x, " " + ReplaceAll(x, "_", " "));
    SpacedNameTrimmed(x);
  }

  lemma TicketDigitsDeleted(n: string, x: string)
    requires n != [] && AllDigits(n)
    ensures DeleteFirstDigitRun(n + "_" + x) == "_" + x
  {
    assert n + "_" + x == n + ("_" + x);
    assert ("_" + x)[0] == '_';
    DeleteLeadingDigits(n, "_" + x);
  }

  lemma TicketBranchSegment(w: string, n: string, x: string)
    requires AllDigits(n) && '/' !in x
    ensures LastSegment(w + "/" + n + "_" + x) == n + "_" + x
  {
    var y := n + "_" + x;
    forall k | 0 <= k < |y| ensures y[k] != '/' {
      if k < |n| {
        assert y[k] == n[k];
      } else if k > |n| {
        assert y[k] == x[k - |n| - 1];
      }
    }
    assert w + "/" + n + "_" + x == w + ['/'] + y;
    LastPartAfterSeparator(w, y, '/');
  }

  /** A leading blank, then the spaced name, trims to the spaced name. */
  lemma SpacedNameTrimmed(x: string)
    requires x != [] && x[0] != '_' && !IsWhitespace(x[0]) && x[|x| - 1] != '_' && !IsWhitespace(x[|x| - 1])
    ensures Trim(" " + ReplaceAll(x, "_", " ")) == ReplaceAll(x, "_", " ")
  {
    var xs := ReplaceAll(x, "_", " ");
    ReplaceCharPointwise(x, '_', ' ');
    assert (" " + xs)[1..] == xs;
    assert TrimStart(" " + xs) == TrimStart(xs);
    assert TrimStart(xs) == xs;
    assert TrimEnd(xs) == xs;
  }

  /** The branches that make `branch_to_title` panic: nothing but digits
      after the last '/', ... */
  lemma EmptyTitleAfterDigits(w: string, n: string)
    requires n != [] && AllDigits(n)
    ensures SanitizedTitle(w + "/" + n) == []
  {
    DigitsOnlySegment(w, n, []);
    assert n + [] == n;
    DeleteLeadingDigits(n, []);
    ReplaceAllAbsent([], "_", " ");
    SanitizedStages(w + "/" + n, n, [], []);
  }

  /** ... or digits and a single '_'. */
  lemma EmptyTitleAfterUnderscore(w: string, n: string)
    requires n != [] && AllDigits(n)
    ensures SanitizedTitle(w + "/" + n + "_") == []
  {
    DigitsOnlySegment(w, n, "_");
    DeleteLeadingDigits(n, "_");
    ReplaceAllHead("_", [], " ");
    assert "_" + [] == "_";
    assert " " + [] == " ";
    SanitizedStages(w + "/" + n + "_", n + "_", "_", " ");
    assert TrimStart(" ") == TrimStart([]);
  }

  lemma DigitsOnlySegment(w: string, n: string, t: string)
    requires AllDigits(n) && (t == [] || t == "_")
    ensures LastSegment(w + "/" + n + t) == n + t
  {
    var y := n + t;
    forall k | 0 <= k < |y| ensures y[k] != '/' {
      if k < |n| {
        assert y[k] == n[k];
      } else {
        assert y[k] == t[k - |n|];
      }
    }
    assert w + "/" + n + t == w + ['/'] + y;
    LastPartAfterSeparator(w, y, '/');
  }

  // ---------------------------------------------------------------------
  // grab_title

  /** `grab_title`: a given title is used as it is; without a token the title
      comes from the branch; with one, the ticket named by the branch is
      looked up (through the client's cache) and its name is the title. The
      precondition rules out the `branch_to_title` panic. */
  method GrabTitle(title: Option<string>, branch: string, client: Client) returns (r: Result<string, CliError>)
    requires title.None? && !client.HasToken() ==> SanitizedTitle(branch) != []
    modifies client`sent, client`assignableCache
    ensures title.Some? ==> r == Ok(title.value)
    ensures title.None? && !client.HasToken() ==> r == Ok(BranchToTitle(branch))
    ensures title.None? && client.HasToken() && GetTicketIdFromBranch(branch).None? ==>
              r == Err(Message("failed to retrive user_story ID"))
    ensures title.Some? || !client.HasToken() || GetTicketIdFromBranch(branch).None? ==>
              client.sent == old(client.sent) && client.assignableCache == old(client.assignableCache)
    ensures title.None? && client.HasToken() && GetTicketIdFromBranch(branch).Some? ==>
              var id := GetTicketIdFromBranch(branch).value;
              id in client.assignableCache
              && r == (match client.assignableCache[id]
                       case Ok(a) => Ok(a.name)
                       case Err(e) => Err(Api(e)))
              && (id in old(client.assignableCache) ==>
                    client.sent == old(client.sent) && client.assignableCache == old(client.assignableCache))
              && (id !in old(client.assignableCache) ==>
                    var (resp, reqs) := client.Exchange(AssignablePath(id), [], None, |old(client.sent)|);
                    client.sent == old(client.sent) + reqs
                    && client.assignableCache == old(client.assignableCache)[id := AsAssignable(resp)])
  {
    if title.Some? {
      return Ok(title.value);
    }
    if !client.HasToken() {
      return Ok(BranchToTitle(branch));
    }
    var id := GetTicketIdFromBranch(branch);
    if id.None? {
      return Err(Message("failed to retrive user_story ID"));
    }
    var assignable := client.GetAssignable(id.value);
    match assignable
    case Ok(a) => r := Ok(a.name);
    case Err(e) => r := Err(Api(e));
  }

  // ---------------------------------------------------------------------
  // build_pr_link, get_repository and get_pr_id

  /** Everything of a pull-request link before the id. */
  function PrLinkPrefix(region: string, repository: string): string {
    "https://" + region + ".console.aws.amazon.com/codesuite/codecommit/repositories/"
    + repository + "/pull-requests/"
  }

  /** `build_pr_link`: the console page of a pull request. */
  function BuildPrLink(region: string, repository: string, id: string): (link: string)
    ensures |link| == |PrLinkPrefix(region, repository)| + |id| + |"/details"|
    ensures link[..|PrLinkPrefix(region, repository)|] == PrLinkPrefix(region, repository)
    ensures link[|link| - |"/details"|..] == "/details"
  {
    PrLinkPrefix(region, repository) + id + "/details"
  }

  /** The id is where the link puts it, so within one repository different
      pull requests get different links. */
  lemma PrLinkId(region: string, repository: string, id: string)
    ensures var link, n := BuildPrLink(region, repository, id), |PrLinkPrefix(region, repository)|;
            link[n..n + |id|] == id
  {
  }

  lemma PrLinkInjective(region: string, repository: string, id: string, id': string)
    requires BuildPrLink(region, repository, id) == BuildPrLink(region, repository, id')
    ensures id == id'
  {
    PrLinkId(region, repository, id);
    PrLinkId(region, repository, id');
  }

  /** `get_repository`: the last '/'-separated part of the origin URL. The
      remote lookup is an input; its failure is passed on. `split` always
      yields a last part, so the "unable to extract repository" error of the
      source cannot occur. */
  function GetRepository(remote: Result<string, string>): (r: Result<string, CliError>)
    ensures r.Ok? <==> remote.Ok?
    ensures remote.Err? ==> r == Err(Fetch(remote.error))
    ensures remote.Ok? ==> '/' !in r.value && |r.value| <= |remote.value|
                           && remote.value[|remote.value| - |r.value|..] == r.value
  {
    match remote
    case Err(e) => Err(Fetch(e))
    case Ok(url) => Ok(LastSegment(url))
  }

  /** A pull-request target: the source and destination references. */
  datatype Target = Target(source: string, destination: string)

  datatype PullRequest = PullRequest(
    id: string,
    title: string,
    description: string,
    status: string,
    targets: seq<Target>)

  /** The source reference with every "refs/heads/" deleted. */
  function SourceBranch(t: Target): string {
    ReplaceAll(t.source, "refs/heads/", "")
  }

  /** The pull request wanted: the one with the given id, or one of whose
      targets comes from the branch. */
  predicate Selects(pr: PullRequest, branch: string, id: Option<string>) {
    (id.Some? && pr.id == id.value)
    || exists j :: 0 <= j < |pr.targets| && SourceBranch(pr.targets[j]) == branch
  }

  const NoPullRequest := "Unable to extract pull request ID"

  /** The outcome of the scan over the fetched pull requests, in list order:
      the first fetch error or the first selected pull request, whichever
      comes first; otherwise the "not found" error. */
  function PrSelection(fetched: seq<Result<PullRequest, string>>, branch: string, id: Option<string>)
    : (r: Result<PullRequest, CliError>)
    ensures r.Ok? ==> Selects(r.value, branch, id) && Ok(r.value) in fetched
    ensures r.Err? ==> r.error == Message(NoPullRequest) || (r.error.Fetch? && Err(r.error.message) in fetched)
  {
    if fetched == [] then Err(Message(NoPullRequest))
    else
      var rest := PrSelection(fetched[1..], branch, id);
      assert forall x :: x in fetched[1..] ==> x in fetched;
      match fetched[0]
      case Err(e) => Err(Fetch(e))
      case Ok(pr) => if Selects(pr, branch, id) then Ok(pr) else rest
  }

  /** The first k entries were fetched and none of them is selected. */
  ghost predicate PassedOver(fetched: seq<Result<PullRequest, string>>, k: nat, branch: string, id: Option<string>) {
    k <= |fetched|
    && forall m :: 0 <= m < k ==> fetched[m].Ok? && !Selects(fetched[m].value, branch, id)
  }

  /** Entries passed over do not affect the outcome. */
  lemma {:induction false} PrSelectionSkips(fetched: seq<Result<PullRequest, string>>, k: nat, branch: string, id: Option<string>)
    requires PassedOver(fetched, k, branch, id)
    ensures PrSelection(fetched, branch, id) == PrSelection(fetched[k..], branch, id)
    decreases k
  {
    if k > 0 {
      PrSelectionSkips(fetched[1..], k - 1, branch, id);
      assert fetched[1..][k - 1..] == fetched[k..];
    }
  }

  /** The scan returns the pull request at k exactly when it is selected and
      everything before it was fetched and not selected. */
  lemma PrSelectionFound(fetched: seq<Result<PullRequest, string>>, k: nat, branch: string, id: Option<string>)
    requires PassedOver(fetched, k, branch, id) && k < |fetched|
    requires fetched[k].Ok? && Selects(fetched[k].value, branch, id)
    ensures PrSelection(fetched, branch, id) == Ok(fetched[k].value)
  {
    PrSelectionSkips(fetched, k, branch, id);
  }

  /** A successful scan returned the first selected pull request. */
  lemma {:induction false} PrSelectionFirst(fetched: seq<Result<PullRequest, string>>, branch: string, id: Option<string>)
    returns (k: nat)
    requires PrSelection(fetched, branch, id).Ok?
    ensures k < |fetched| && PassedOver(fetched, k, branch, id)
    ensures fetched[k] == Ok(PrSelection(fetched, branch, id).value)
  {
    if fetched[0].Ok? && Selects(fetched[0].value, branch, id) {
      k := 0;
    } else {
      var k' := PrSelectionFirst(fetched[1..], branch, id);
      k := k' + 1;
      assert fetched[k] == fetched[1..][k'];
      forall m | 0 <= m < k
        ensures fetched[m].Ok? && !Selects(fetched[m].value, branch, id)
      {
        if m > 0 {
          assert fetched[m] == fetched[1..][m - 1];
        }
      }
    }
  }

  /** "Unable to extract pull request ID" exactly when every pull request was
      fetched and none is selected. */
  lemma PrSelectionNotFound(fetched: seq<Result<PullRequest, string>>, branch: string, id: Option<string>)
    ensures PrSelection(fetched, branch, id) == Err(Message(NoPullRequest))
            <==> PassedOver(fetched, |fetched|, branch, id)
  {
    if PassedOver(fetched, |fetched|, branch, id) {
      PrSelectionSkips(fetched, |fetched|, branch, id);
    }
    if PrSelection(fetched, branch, id) == Err(Message(NoPullRequest)) {
      PrSelectionNoneSelected(fetched, branch, id);
    }
  }

  lemma {:induction false} PrSelectionNoneSelected(fetched: seq<Result<PullRequest, string>>, branch: string, id: Option<string>)
    requires PrSelection(fetched, branch, id) == Err(Message(NoPullRequest))
    ensures PassedOver(fetched, |fetched|, branch, id)
  {
    if fetched != [] {
      PrSelectionNoneSelected(fetched[1..], branch, id);
      forall m | 0 <= m < |fetched|
        ensures fetched[m].Ok? && !Selects(fetched[m].value, branch, id)
      {
        if m > 0 {
          assert fetched[m] == fetched[1..][m - 1];
        }
      }
    }
  }

  /** A failed fetch ends the scan when it is reached. */
  lemma PrSelectionFetchError(fetched: seq<Result<PullRequest, string>>, k: nat, branch: string, id: Option<string>)
    requires PassedOver(fetched, k, branch, id) && k < |fetched| && fetched[k].Err?
    ensures PrSelection(fetched, branch, id) == Err(Fetch(fetched[k].error))
  {
    PrSelectionSkips(fetched, k, branch, id);
  }

  /** A source "refs/heads/b" is compared as b. */
  lemma RefsHeadsStripped(b: string)
    requires forall i :: 0 <= i <= |b| ==> !StartsWith(b[i..], "refs/heads/")
    ensures SourceBranch(Target("refs/heads/" + b, [])) == b
  {
    ReplaceAllHead("refs/heads/", b, "");
    ReplaceAllAbsent(b, "refs/heads/", "");
    assert "" + b == b;
  }

  /** `get_pr_id`. The repository lookup, the listing of its open pull
      requests and the fetch of each of them are inputs: `list` maps a
      repository to the outcome of the listing, whose entries are the
      outcomes of `get_pull_request` in list order. */
  method GetPrId(remote: Result<string, string>,
                 list: string -> Result<seq<Result<PullRequest, string>>, string>,
                 branch: string, id: Option<string>)
    returns (r: Result<PullRequest, CliError>)
    ensures remote.Err? ==> r == Err(Fetch(remote.error))
    ensures remote.Ok? ==>
              var listed := list(GetRepository(remote).value);
              (listed.Err? ==> r == Err(Fetch(listed.error)))
              && (listed.Ok? ==> r == PrSelection(listed.value, branch, id))
  {
    var repository := GetRepository(remote);
    if repository.Err? {
      return Err(repository.error);
    }
    var listed := list(repository.value);
    if listed.Err? {
      return Err(Fetch(listed.error));
    }
    var prs := listed.value;
    var i := 0;
    while i < |prs|
      invariant 0 <= i <= |prs|
      invariant PrSelection(prs, branch, id) == PrSelection(prs[i..], branch, id)
    {
      var current := prs[i];
      assert prs[i..][0] == current && prs[i..][1..] == prs[i + 1..];
      if current.Err? {
        return Err(Fetch(current.error));
      }
      var pr := current.value;
      if id.Some? && pr.id == id.value {
        return Ok(pr);
      }
      var j := 0;
      while j < |pr.targets|
        invariant 0 <= j <= |pr.targets|
        invariant forall m :: 0 <= m < j ==> SourceBranch(pr.targets[m]) != branch
      {
        if SourceBranch(pr.targets[j]) == branch {
          return Ok(pr);
        }
        j := j + 1;
      }
      i := i + 1;
    }
    return Err(Message(NoPullRequest));
  }
}
