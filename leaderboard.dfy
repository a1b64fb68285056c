/**
 * The pure logic of the Firestore leaderboard provider: how a stored
 * document becomes a `LeaderboardEntry` (the player name is cut to twelve
 * characters and cleaned of line breaks and HTML tags, time and score are
 * clamped at zero), and which equality filters a listing query gets for
 * the chosen period.
 */
module Leaderboard {

  // ---------------------------------------------------------------- names

  /** `substr(0, 12)`: the longest name a leaderboard shows. */
  const MaxNameLength: nat := 12

  predicate IsNewline(c: char) {
    c == '\r' || c == '\n'
  }

  /** `a` can be obtained from `b` by deleting characters. */
  predicate IsSubsequence(a: string, b: string)
    decreases |b|
  {
    |a| <= |b| &&
    (|a| == 0 ||
     (|b| > 0 &&
      ((a[0] == b[0] && IsSubsequence(a[1..], b[1..])) || IsSubsequence(a, b[1..]))))
  }

  /** `s.substr(0, n)`: the first `n` characters, or all of a shorter string. */
  function Truncate(s: string, n: nat): (r: string)
    ensures |r| == if |s| < n then |s| else n
    ensures r <= s
  {
    if |s| <= n then s else s[..n]
  }

  /**
   * `s.replace(/(\r\n|\n|\r)/gm, "")`: the global scan tries the
   * alternatives in order at each position, so a CR LF pair goes as one
   * match and a lone CR or LF as another; every other character stays.
   */
  function RemoveNewlines(s: string): (r: string)
    decreases |s|
  {
    if |s| == 0 then []
    else if |s| >= 2 && s[0] == '\r' && s[1] == '\n' then RemoveNewlines(s[2..])
    else if IsNewline(s[0]) then RemoveNewlines(s[1..])
    else [s[0]] + RemoveNewlines(s[1..])
  }

  /** Reference for `RemoveNewlines`: keep exactly the characters that are not CR or LF. */
  function WithoutNewlines(s: string): (r: string)
    ensures |r| <= |s|
    ensures forall i :: 0 <= i < |r| ==> !IsNewline(r[i])
    ensures (forall i :: 0 <= i < |s| ==> !IsNewline(s[i])) ==> r == s
  {
    if |s| == 0 then []
    else (if IsNewline(s[0]) then [] else [s[0]]) + WithoutNewlines(s[1..])
  }

  /** The regex scan deletes exactly the line-break characters, pairs or not. */
  lemma {:induction false} RemoveNewlinesIsFilter(s: string)
    ensures RemoveNewlines(s) == WithoutNewlines(s)
    decreases |s|
  {
    if |s| == 0 {
    } else if |s| >= 2 && s[0] == '\r' && s[1] == '\n' {
      RemoveNewlinesIsFilter(s[2..]);
      assert s[1..][1..] == s[2..];
    } else {
      RemoveNewlinesIsFilter(s[1..]);
    }
  }

  lemma {:induction false} WithoutNewlinesSubsequence(s: string)
    ensures IsSubsequence(WithoutNewlines(s), s)
    decreases |s|
  {
    if |s| > 0 {
      var w := WithoutNewlines(s);
      WithoutNewlinesSubsequence(s[1..]);
      if IsNewline(s[0]) {
        assert w == WithoutNewlines(s[1..]);
        assert IsSubsequence(w, s[1..]);
      } else {
        assert w == [s[0]] + WithoutNewlines(s[1..]);
        assert w[0] == s[0] && w[1..] == WithoutNewlines(s[1..]);
        assert IsSubsequence(w[1..], s[1..]);
      }
    }
  }

  /**
   * What `<[^>]*>?` consumes after a `<`: greedily every character that
   * is not `>`, then a `>` if one follows. The rest of the string is left.
   */
  function SkipTag(s: string): (r: string)
    ensures |r| <= |s|
    ensures r == s[|s| - |r|..]
  {
    if |s| == 0 then []
    else if s[0] == '>' then s[1..]
    else SkipTag(s[1..])
  }

  /**
   * `s.replace(/<[^>]*>?/gm, '')`: each `<` is deleted together with
   * everything up to and including the next `>`, or to the end of the
   * string when no `>` follows; other characters stay.
   */
  function StripTags(s: string): (r: string)
    ensures |r| <= |s|
    ensures forall i :: 0 <= i < |r| ==> r[i] != '<'
    decreases |s|
  {
    if |s| == 0 then []
    else if s[0] == '<' then StripTags(SkipTag(s[1..]))
    else [s[0]] + StripTags(s[1..])
  }

  /** The name shown on the leaderboard for a stored name. */
  function SanitizeName(raw: string): string {
    StripTags(RemoveNewlines(Truncate(raw, MaxNameLength)))
  }

  // ---------------------------------------------------------------- subsequences

  lemma {:induction false} SubsequenceTransitive(a: string, b: string, c: string)
    requires IsSubsequence(a, b) && IsSubsequence(b, c)
    ensures IsSubsequence(a, c)
    decreases |c|
  {
    if |a| == 0 {
    } else if IsSubsequence(b, c[1..]) {
      SubsequenceTransitive(a, b, c[1..]);
    } else if a[0] == b[0] && IsSubsequence(a[1..], b[1..]) {
      SubsequenceTransitive(a[1..], b[1..], c[1..]);
    } else {
      SubsequenceTransitive(a, b[1..], c[1..]);
    }
  }

  lemma {:induction false} SubsequenceOfSuffix(a: string, b: string, k: nat)
    requires k <= |b| && IsSubsequence(a, b[k..])
    ensures IsSubsequence(a, b)
    decreases k
  {
    if k > 0 {
      assert b[1..][k - 1..] == b[k..];
      SubsequenceOfSuffix(a, b[1..], k - 1);
    }
  }

  lemma {:induction false} SubsequenceMembers(a: string, b: string)
    requires IsSubsequence(a, b)
    ensures forall c :: c in a ==> c in b
    decreases |b|
  {
    if |a| == 0 {
    } else if a[0] == b[0] && IsSubsequence(a[1..], b[1..]) {
      SubsequenceMembers(a[1..], b[1..]);
      assert a == [a[0]] + a[1..];
      assert b == [b[0]] + b[1..];
    } else {
      SubsequenceMembers(a, b[1..]);
      assert b == [b[0]] + b[1..];
    }
  }

  /** Tag stripping only deletes characters. */
  lemma {:induction false} StripTagsSubsequence(s: string)
    ensures IsSubsequence(StripTags(s), s)
    decreases |s|
  {
    if |s| == 0 {
    } else if s[0] == '<' {
      var rest := SkipTag(s[1..]);
      StripTagsSubsequence(rest);
      assert s[1..][|s| - 1 - |rest|..] == s[|s| - |rest|..];
      SubsequenceOfSuffix(StripTags(rest), s, |s| - |rest|);
    } else {
      StripTagsSubsequence(s[1..]);
    }
  }

  // ---------------------------------------------------------------- tag stripping

  /** Text without `<` in front of the rest passes through tag stripping. */
  lemma {:induction false} StripTagsPrefix(a: string, b: string)
    requires forall i :: 0 <= i < |a| ==> a[i] != '<'
    ensures StripTags(a + b) == a + StripTags(b)
    decreases |a|
  {
    if |a| > 0 {
      assert (a + b)[0] == a[0] && (a + b)[1..] == a[1..] + b;
      assert StripTags(a + b) == [a[0]] + StripTags(a[1..] + b);
      StripTagsPrefix(a[1..], b);
      assert a == [a[0]] + a[1..];
    } else {
      assert a + b == b;
    }
  }

  lemma {:induction false} SkipTagPast(t: string, b: string)
    requires forall i :: 0 <= i < |t| ==> t[i] != '>'
    ensures SkipTag(t + ['>'] + b) == b
    ensures SkipTag(t) == []
    decreases |t|
  {
    if |t| > 0 {
      assert (t + ['>'] + b)[1..] == t[1..] + ['>'] + b;
      SkipTagPast(t[1..], b);
    }
  }

  /** Proof step: unfolds `StripTags` at a `<`. */
  lemma StripTagsAtTag(rest: string)
    ensures StripTags(['<'] + rest) == StripTags(SkipTag(rest))
  {
    assert (['<'] + rest)[0] == '<' && (['<'] + rest)[1..] == rest;
  }

  /** A complete tag `<…>` disappears, and what follows it is stripped in turn. */
  lemma StripTagsClosedTag(a: string, t: string, b: string)
    requires forall i :: 0 <= i < |a| ==> a[i] != '<'
    requires forall i :: 0 <= i < |t| ==> t[i] != '>'
    ensures StripTags(a + ['<'] + t + ['>'] + b) == a + StripTags(b)
  {
    var rest := t + ['>'] + b;
    assert a + ['<'] + t + ['>'] + b == a + (['<'] + rest);
    StripTagsPrefix(a, ['<'] + rest);
    StripTagsAtTag(rest);
    SkipTagPast(t, b);
  }

  /** A `<` that no `>` closes removes everything after it. */
  lemma StripTagsOpenTag(a: string, t: string)
    requires forall i :: 0 <= i < |a| ==> a[i] != '<'
    requires forall i :: 0 <= i < |t| ==> t[i] != '>'
    ensures StripTags(a + ['<'] + t) == a
  {
    assert a + ['<'] + t == a + (['<'] + t);
    StripTagsPrefix(a, ['<'] + t);
    StripTagsAtTag(t);
    SkipTagPast(t, []);
    assert a + [] == a;
  }

  // ---------------------------------------------------------------- sanitising

  /**
   * The shown name is at most twelve characters long, is what remains of
   * the first twelve characters of the stored name after deletions, and
   * holds no line break and no `<`.
   */
  lemma SanitizeNameSpec(raw: string)
    ensures |SanitizeName(raw)| <= MaxNameLength
    ensures IsSubsequence(SanitizeName(raw), Truncate(raw, MaxNameLength))
    ensures forall i :: 0 <= i < |SanitizeName(raw)| ==>
      !IsNewline(SanitizeName(raw)[i]) && SanitizeName(raw)[i] != '<'
  {
    var cut := Truncate(raw, MaxNameLength);
    var flat := RemoveNewlines(cut);
    RemoveNewlinesIsFilter(cut);
    WithoutNewlinesSubsequence(cut);
    StripTagsSubsequence(flat);
    SubsequenceTransitive(StripTags(flat), flat, cut);
    SubsequenceMembers(StripTags(flat), flat);
    forall i | 0 <= i < |SanitizeName(raw)|
      ensures !IsNewline(SanitizeName(raw)[i])
    {
      assert SanitizeName(raw)[i] in flat;
    }
  }

  /** A name of at most twelve characters with no line break and no `<` is shown as stored. */
  lemma CleanNameUnchanged(raw: string)
    requires |raw| <= MaxNameLength
    requires forall i :: 0 <= i < |raw| ==> !IsNewline(raw[i]) && raw[i] != '<'
    ensures SanitizeName(raw) == raw
  {
    RemoveNewlinesIsFilter(raw);
    StripTagsPrefix(raw, []);
    assert raw + [] == raw;
  }

  /** Sanitising a shown name again changes nothing. */
  lemma SanitizeNameIdempotent(raw: string)
    ensures SanitizeName(SanitizeName(raw)) == SanitizeName(raw)
  {
    SanitizeNameSpec(raw);
    CleanNameUnchanged(SanitizeName(raw));
  }

  // ---------------------------------------------------------------- entries

  /** A leaderboard document as stored; `dateSeconds` is its timestamp's seconds. */
  datatype StoredEntry = StoredEntry(name: string, time: int, dateSeconds: int, score: int)

  /** A `LeaderboardEntry`; `date` is in milliseconds since the epoch, as `Date` keeps it. */
  datatype LeaderboardEntry = LeaderboardEntry(name: string, time: int, date: int, score: int)

  /** `Math.max(0, v)`. */
  function ClampNonNegative(v: int): (r: int)
    ensures r >= 0 && r >= v
    ensures r == v || r == 0
  {
    if v < 0 then 0 else v
  }

  /** The mapping `listLeaderboard` applies to each document of a snapshot. */
  function ToEntry(doc: StoredEntry): (e: LeaderboardEntry)
    ensures e.name == SanitizeName(doc.name) && |e.name| <= MaxNameLength
    ensures e.time >= 0 && (doc.time >= 0 ==> e.time == doc.time)
    ensures e.score >= 0 && (doc.score >= 0 ==> e.score == doc.score)
    ensures e.date % 1000 == 0 && e.date / 1000 == doc.dateSeconds
  {
    SanitizeNameSpec(doc.name);
    LeaderboardEntry(
      SanitizeName(doc.name),
      ClampNonNegative(doc.time),
      doc.dateSeconds * 1000,
      ClampNonNegative(doc.score))
  }

  /** `snap.docs.map(...)`: one entry per document, in snapshot order. */
  function ToEntries(docs: seq<StoredEntry>): seq<LeaderboardEntry> {
    seq(|docs|, i requires 0 <= i < |docs| => ToEntry(docs[i]))
  }

  /** Every listed entry has a short, clean name and no negative time or score. */
  lemma EntriesClean(docs: seq<StoredEntry>)
    ensures |ToEntries(docs)| == |docs|
    ensures forall i :: 0 <= i < |docs| ==>
      var e := ToEntries(docs)[i];
      e.time >= 0 && e.score >= 0 && e.name == SanitizeName(docs[i].name) &&
      forall j :: 0 <= j < |e.name| ==> !IsNewline(e.name[j]) && e.name[j] != '<'
  {
    forall i | 0 <= i < |docs| ensures
      var e := ToEntries(docs)[i];
      e.time >= 0 && e.score >= 0 && e.name == SanitizeName(docs[i].name) &&
      forall j :: 0 <= j < |e.name| ==> !IsNewline(e.name[j]) && e.name[j] != '<'
    {
      SanitizeNameSpec(docs[i].name);
    }
  }

  // ---------------------------------------------------------------- queries

  datatype Period = Day | Month | Year | AllTime
  datatype OrderField = ScoreField | TimeField | DateField
  datatype Order = Asc | Desc

  /** The `utcDay`, `utcMonth` and `utcYear` fields `createEntry` stores beside an entry. */
  datatype Field = UtcDay | UtcMonth | UtcYear

  /** `where(field, "==", value)`. */
  datatype Filter = Equals(field: Field, value: int)

  /** A UTC calendar date as `getUTCDate`, `getUTCMonth` and `getUTCFullYear` report it. */
  datatype UtcDate = UtcDate(day: int, month: int, year: int)

  /** `collection.orderBy(orderBy, order).limit(limit)` followed by the `where` filters. */
  datatype Query = Query(orderBy: OrderField, order: Order, limit: int, filters: seq<Filter>)

  function FieldOf(d: UtcDate, f: Field): int {
    match f
    case UtcDay => d.day
    case UtcMonth => d.month
    case UtcYear => d.year
  }

  /** Reference: the filters each period is meant to add, listed outright. */
  function PeriodFilters(period: Period, now: UtcDate): seq<Filter> {
    match period
    case Day => [Equals(UtcDay, now.day), Equals(UtcMonth, now.month), Equals(UtcYear, now.year)]
    case Month => [Equals(UtcMonth, now.month), Equals(UtcYear, now.year)]
    case Year => [Equals(UtcYear, now.year)]
    case AllTime => []
  }

  /**
   * The query `listLeaderboard` builds. The `switch` on the period has no
   * `break`, so each case also runs every case below it; `now` is the
   * current UTC date.
   */
  method ListQuery(limit: int, orderBy: OrderField, order: Order, period: Period, now: UtcDate)
    returns (query: Query)
    ensures query == Query(orderBy, order, limit, PeriodFilters(period, now))
  {
    query := Query(orderBy, order, limit, []);
    if period != AllTime {
      var date := now;
      if period == Day {
        query := query.(filters := query.filters + [Equals(UtcDay, date.day)]);
      }
      if period == Day || period == Month {
        query := query.(filters := query.filters + [Equals(UtcMonth, date.month)]);
      }
      if period == Day || period == Month || period == Year {
        query := query.(filters := query.filters + [Equals(UtcYear, date.year)]);
      }
    }
  }

  /** A stored entry whose UTC fields are `stored` passes every filter. */
  predicate Passes(filters: seq<Filter>, stored: UtcDate) {
    forall i :: 0 <= i < |filters| ==> FieldOf(stored, filters[i].field) == filters[i].value
  }

  /**
   * Because of the fall-through, a period selects exactly the entries of
   * the same UTC day, of the same month and year, or of the same year.
   */
  lemma PeriodSelects(period: Period, now: UtcDate, stored: UtcDate)
    ensures Passes(PeriodFilters(period, now), stored) <==>
      match period
      case Day => stored == now
      case Month => stored.month == now.month && stored.year == now.year
      case Year => stored.year == now.year
      case AllTime => true
  {
    var fs := PeriodFilters(period, now);
    if period != AllTime && Passes(fs, stored) {
      assert FieldOf(stored, fs[|fs| - 1].field) == fs[|fs| - 1].value;
      if period != Year {
        assert FieldOf(stored, fs[|fs| - 2].field) == fs[|fs| - 2].value;
      }
      if period == Day {
        assert FieldOf(stored, fs[0].field) == fs[0].value;
      }
    }
  }
}
