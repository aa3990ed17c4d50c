/**
 * Recovering the requester from the text an administrator replied to:
 * `re.search(r"USER_ID:(\d+)", text or "")` followed by `int(match.group(1))`
 * in `admin_reply` (main.py).
 */
module Tag {
  import opened Wrappers
  import opened Decimal
  import opened Report

  /** The pattern matches at `i`: the tag prefix, then at least one digit. */
  predicate TagAt(t: string, i: nat) {
    i + |TagPrefix| < |t| && t[i..i + |TagPrefix|] == TagPrefix && IsDigit(t[i + |TagPrefix|])
  }

  /** The leftmost match position at or after `from`, as `re.search` scans. */
  function Search(t: string, from: nat): (r: Option<nat>)
    ensures r.Some? ==> from <= r.value && TagAt(t, r.value)
    ensures r.Some? ==> forall i: nat :: from <= i < r.value ==> !TagAt(t, i)
    ensures r.None? ==> forall i: nat :: from <= i ==> !TagAt(t, i)
    decreases |t| - from
  {
    if from >= |t| then None
    else if TagAt(t, from) then Some(from)
    else Search(t, from + 1)
  }

  /** The end of the greedy `\d+` run that starts at `j`. */
  function RunEnd(t: string, j: nat): (k: nat)
    requires j <= |t|
    ensures j <= k <= |t| && AllDigits(t[j..k])
    ensures k == |t| || !IsDigit(t[k])
    decreases |t| - j
  {
    if j < |t| && IsDigit(t[j]) then
      var k := RunEnd(t, j + 1);
      assert t[j..k] == [t[j]] + t[j + 1..k];
      k
    else j
  }

  /** `m.reply_to_message.text or ""`. */
  function RepliedText(replied: Option<string>): (t: string)
    ensures replied.None? ==> t == ""
    ensures replied.Some? ==> t == replied.value
  {
    if replied.Some? then replied.value else ""
  }

  /** The requester id found in the replied-to text, or `None` for the not-found branch. */
  function Extract(replied: Option<string>): (r: Option<nat>)
    ensures replied.None? ==> r.None?
    ensures r.None? <==> forall i: nat :: !TagAt(RepliedText(replied), i)
  {
    var t := RepliedText(replied);
    match Search(t, 0)
    case None => None
    case Some(i) => Some(DigitsValue(t[i + |TagPrefix|..RunEnd(t, i + |TagPrefix|)]))
  }

  /** A match needs the letter `U` at its start. */
  lemma NoTagWithoutU(t: string, i: nat)
    requires i < |t| && t[i] != 'U'
    ensures !TagAt(t, i)
  {
    if i + |TagPrefix| < |t| {
      assert t[i..i + |TagPrefix|][0] == t[i];
    }
  }

  /** No match starts inside a prefix without the letter `U`. */
  lemma NoTagInsidePrefix(p: string, s: string)
    requires 'U' !in p
    ensures forall j: nat :: j < |p| ==> !TagAt(p + s, j)
  {
    forall j: nat | j < |p| ensures !TagAt(p + s, j) {
      assert (p + s)[j] == p[j];
      NoTagWithoutU(p + s, j);
    }
  }

  /** Extraction skips a prefix without the letter `U`. */
  lemma ExtractAfterLabel(p: string, s: string)
    requires 'U' !in p
    ensures Extract(Some(p + s)) == Extract(Some(s))
  {
    NoTagInsidePrefix(p, s);
    ExtractAfterPrefix(p, s);
  }

  /** The search from `from` stops at the first match `i` after it. */
  lemma {:induction false} SearchFinds(t: string, from: nat, i: nat)
    requires from <= i && TagAt(t, i) && forall j: nat :: from <= j < i ==> !TagAt(t, j)
    ensures Search(t, from) == Some(i)
    decreases i - from
  {
    if from < i {
      SearchFinds(t, from + 1, i);
    }
  }

  /** The greedy run from `j` ends at `k` when `t[j..k]` is all digits and `k` is the end or a non-digit. */
  lemma {:induction false} RunEndAt(t: string, j: nat, k: nat)
    requires j <= k <= |t| && AllDigits(t[j..k]) && (k == |t| || !IsDigit(t[k]))
    ensures RunEnd(t, j) == k
    decreases k - j
  {
    if j < k {
      assert t[j..k][0] == t[j];
      assert t[j + 1..k] == t[j..k][1..];
      RunEndAt(t, j + 1, k);
    }
  }

  /** The extracted id is the value of the maximal digit run after the first match. */
  lemma ExtractFirstTag(t: string, i: nat, k: nat)
    requires TagAt(t, i) && forall j: nat :: j < i ==> !TagAt(t, j)
    requires i + |TagPrefix| < k <= |t| && AllDigits(t[i + |TagPrefix|..k])
    requires k == |t| || !IsDigit(t[k])
    ensures Extract(Some(t)) == Some(DigitsValue(t[i + |TagPrefix|..k]))
  {
    SearchFinds(t, 0, i);
    RunEndAt(t, i + |TagPrefix|, k);
  }

  /** A match lies wholly ahead of its start, so a prefix does not change matches inside the rest. */
  lemma TagAtShift(p: string, s: string, i: nat)
    ensures TagAt(p + s, |p| + i) == TagAt(s, i)
  {
    if i + |TagPrefix| < |s| {
      assert (p + s)[|p| + i..|p| + i + |TagPrefix|] == s[i..i + |TagPrefix|];
    }
  }

  /** If no match starts inside `p`, extraction from `p + s` is extraction from `s`. */
  lemma ExtractAfterPrefix(p: string, s: string)
    requires forall j: nat :: j < |p| ==> !TagAt(p + s, j)
    ensures Extract(Some(p + s)) == Extract(Some(s))
  {
    match Search(s, 0)
    case None =>
      NoTagShifted(p, s, |s| + 1);
      assert forall j: nat :: |p| + |s| + 1 <= j ==> !TagAt(p + s, j);
    case Some(i) =>
      FirstTagShifted(p, s, i);
  }

  /** Matches of `s` before `hi` are absent from `p + s` as well, shifted by `|p|`. */
  lemma NoTagShifted(p: string, s: string, hi: nat)
    requires forall j: nat :: j < hi ==> !TagAt(s, j)
    ensures forall j: nat :: |p| <= j < |p| + hi ==> !TagAt(p + s, j)
  {
    forall j: nat | |p| <= j < |p| + hi ensures !TagAt(p + s, j) {
      TagAtShift(p, s, j - |p|);
    }
  }

  /** The first match of `s`, shifted by `|p|`, is the first match of `p + s` when `p` holds none. */
  lemma FirstTagShifted(p: string, s: string, i: nat)
    requires forall j: nat :: j < |p| ==> !TagAt(p + s, j)
    requires Search(s, 0) == Some(i)
    ensures Extract(Some(p + s)) == Extract(Some(s))
  {
    var t := p + s;
    var k := RunEnd(s, i + |TagPrefix|);
    TagAtShift(p, s, i);
    NoTagShifted(p, s, i);
    assert forall j: nat :: j < |p| + i ==> !TagAt(t, j);
    assert t[|p| + i + |TagPrefix|..|p| + k] == s[i + |TagPrefix|..k];
    if k < |s| {
      assert t[|p| + k] == s[k];
    }
    ExtractFirstTag(t, |p| + i, |p| + k);
  }

  /** Round trip: the tag of a caption built for a non-negative id yields that id, whatever the user fields and the reason hold. */
  lemma CaptionRoundTrip(req: Request, reason: string)
    requires req.userId >= 0
    ensures Extract(Some(Caption(req, reason))) == Some(req.userId)
  {
    var t := Caption(req, reason);
    var h := |Header|;
    var d := NatToDecimal(req.userId);
    var tag := TagLine(req.userId);
    assert tag == TagPrefix + d + "\n";
    assert t == Header + tag + Details(req, reason);
    assert t[h..h + |tag|] == tag;
    assert t[h..h + |TagPrefix|] == TagPrefix;
    assert t[h + |TagPrefix|..h + |TagPrefix| + |d|] == d;
    assert t[h + |TagPrefix| + |d|] == '\n';
    assert t[h + |TagPrefix|] == d[0];
    forall j: nat | j < h ensures !TagAt(t, j) {
      assert t[j] == Header[j];
      NoTagWithoutU(t, j);
    }
    ExtractFirstTag(t, h, h + |TagPrefix| + |d|);
    DigitsValueOfDecimal(req.userId);
  }

  /**
   * For a negative id the tag line never matches (the pattern takes no minus
   * sign), so extraction sees only the product, problems, extra information
   * and reason lines.
   */
  lemma NegativeIdSkipsTagLine(req: Request, reason: string)
    requires req.userId < 0
    ensures !TagAt(Caption(req, reason), |Header|)
    ensures Extract(Some(Caption(req, reason))) == Extract(Some(Details(req, reason)))
  {
    var tag := TagLine(req.userId);
    NegativeTagLine(req.userId);
    assert 'U' !in Header;
    NoTagBeforeRest(Header, tag, Details(req, reason));
    assert Caption(req, reason) == (Header + tag) + Details(req, reason);
    ExtractAfterPrefix(Header + tag, Details(req, reason));
  }

  /** The tag line of a negative id has a minus sign where the pattern needs a digit, and no other `U`. */
  lemma NegativeTagLine(userId: int)
    requires userId < 0
    ensures |TagLine(userId)| > |TagPrefix| && TagLine(userId)[|TagPrefix|] == '-'
    ensures forall x :: 1 <= x < |TagLine(userId)| ==> TagLine(userId)[x] != 'U'
  {
    var tag := TagLine(userId);
    var d := NatToDecimal(-userId);
    assert tag == TagPrefix + "-" + d + "\n";
    forall x | 1 <= x < |tag| ensures tag[x] != 'U' {
      if |TagPrefix| + 1 <= x < |TagPrefix| + 1 + |d| {
        assert tag[x] == d[x - |TagPrefix| - 1];
      }
    }
  }

  /** No match starts in a `U`-free head or in a line whose only `U` opens a prefix followed by a non-digit. */
  lemma NoTagBeforeRest(head: string, line: string, rest: string)
    requires 'U' !in head
    requires |line| > |TagPrefix| && !IsDigit(line[|TagPrefix|])
    requires forall x :: 1 <= x < |line| ==> line[x] != 'U'
    ensures forall j: nat :: j < |head + line| ==> !TagAt(head + line + rest, j)
  {
    var t := head + line + rest;
    forall j: nat | j < |head + line| ensures !TagAt(t, j) {
      if j < |head| {
        assert t[j] == head[j];
        NoTagWithoutU(t, j);
      } else if j > |head| {
        assert t[j] == line[j - |head|];
        NoTagWithoutU(t, j);
      } else {
        assert t[j + |TagPrefix|] == line[|TagPrefix|];
      }
    }
  }

  /** A negative id whose product field carries a tag of its own routes the reply to that other id. */
  lemma NegativeIdUsesProductTag(req: Request, reason: string, other: nat)
    requires req.userId < 0 && req.product == TagPrefix + NatToDecimal(other)
    ensures Extract(Some(Caption(req, reason))) == Some(other)
  {
    NegativeIdSkipsTagLine(req, reason);
    ProductTagInDetails(req, reason, other);
  }

  /** The product line's tag is the first match in the lines after the tag line. */
  lemma ProductTagInDetails(req: Request, reason: string, other: nat)
    requires req.product == TagPrefix + NatToDecimal(other)
    ensures Extract(Some(Details(req, reason))) == Some(other)
  {
    var d := NatToDecimal(other);
    var rest := "\n" + DetailsAfterProduct(req, reason);
    assert Details(req, reason) == ProductLabel + (TagPrefix + d + rest);
    assert 'U' !in ProductLabel;
    TagAfterLabel(ProductLabel, d, rest);
    DigitsValueOfDecimal(other);
  }

  /** A text that opens with a lead free of `U`, then the tag prefix, a digit string and a non-digit, yields that string's value. */
  lemma TagAfterLabel(lead: string, d: string, rest: string)
    requires 'U' !in lead
    requires |d| >= 1 && AllDigits(d) && |rest| >= 1 && !IsDigit(rest[0])
    ensures Extract(Some(lead + (TagPrefix + d + rest))) == Some(DigitsValue(d))
  {
    ExtractAfterLabel(lead, TagPrefix + d + rest);
    TagOpensText(d, rest);
  }

  /** A text that opens with the tag prefix, a digit string and a non-digit yields that string's value. */
  lemma TagOpensText(d: string, rest: string)
    requires |d| >= 1 && AllDigits(d) && |rest| >= 1 && !IsDigit(rest[0])
    ensures Extract(Some(TagPrefix + d + rest)) == Some(DigitsValue(d))
  {
    var u := TagPrefix + d + rest;
    var m := |TagPrefix|;
    assert u[..m] == TagPrefix;
    assert u[m..m + |d|] == d;
    assert u[m + |d|] == rest[0];
    assert u[m] == d[0];
    ExtractFirstTag(u, 0, m + |d|);
  }

  /** The lines after the product line. */
  function DetailsAfterProduct(req: Request, reason: string): (rest: string)
    ensures Details(req, reason) == ProductLabel + req.product + "\n" + rest
  {
    ProblemsLabel + Join(req.problems, ProblemSeparator) + "\n"
      + ExtraLabel + req.extraInfo + "\n" + ReasonLabel + reason
  }
}
