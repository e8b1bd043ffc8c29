/** The `[#slug-number]` subject tag: stamped on outbound subjects and read out of replies
    (api/src/outbound.rs, api/src/db.rs). */
module SubjectTags {
  import opened Prelude

  const U64_MAX: nat := 0xFFFF_FFFF_FFFF_FFFF
  const MAX_SLUG: nat := 63

  type Tag = (string, nat)

  /** `str::parse::<u64>`: one leading `+` is allowed, and any number of zeros. */
  function ParseU64(s: string): Option<nat> {
    var digits := if s != "" && s[0] == '+' then s[1..] else s;
    if digits == "" || !AllDigits(digits) || Denotes(digits) > U64_MAX then None else Some(Denotes(digits))
  }

  /** `validate_slug`. */
  predicate ValidSlug(slug: string) {
    && slug != "" && |slug| <= MAX_SLUG
    && (forall i :: 0 <= i < |slug| ==> 'a' <= slug[i] <= 'z' || IsDigit(slug[i]) || slug[i] == '-')
    && slug[0] != '-' && slug[|slug| - 1] != '-'
  }

  function TicketSubjectTag(slug: string, number: nat): string { "[#" + slug + "-" + Decimal(number) + "]" }

  /** What follows a `[#`, read as a tag: up to the first `]`, parted at the last `-`. */
  function TagInside(inner: string): Option<Tag> {
    match SplitOnce(inner, ']')
    case None => None
    case Some((tag, _)) =>
      match RSplitOnce(tag, '-')
      case None => None
      case Some((slug, digits)) =>
        if slug == "" then None
        else
          match ParseU64(digits)
          case None => None
          case Some(number) => Some((slug, number))
  }

  /** The text is `digits`, perhaps behind one `+`, and they denote `n`. */
  predicate WritesNumber(s: string, digits: string, n: nat) {
    (s == digits || s == "+" + digits) && digits != "" && AllDigits(digits) && Denotes(digits) == n
  }

  /** A number is read exactly if it is written and fits 64 bits. */
  lemma {:induction false} ParseU64Iff(s: string, n: nat)
    ensures ParseU64(s) == Some(n) <==> n <= U64_MAX && exists digits :: WritesNumber(s, digits, n)
  {
    if digits :| WritesNumber(s, digits, n) {
      assert digits[0] != '+';
      assert s == "+" + digits ==> s[1..] == digits;
    }
    if ParseU64(s) == Some(n) {
      var digits := if s[0] == '+' then s[1..] else s;
      assert s[0] == '+' ==> s == "+" + digits;
      assert WritesNumber(s, digits, n);
    }
  }

  /** The text closes a tag: a slug, the last `-` before the first `]`, a number. */
  predicate WritesTag(inner: string, slug: string, digits: string, rest: string, number: nat) {
    && inner == slug + "-" + digits + "]" + rest
    && slug != "" && ']' !in slug && '-' !in digits && ']' !in digits && ParseU64(digits) == Some(number)
  }

  lemma {:induction false} TagInsideIff(inner: string, slug: string, number: nat)
    ensures TagInside(inner) == Some((slug, number)) <==> exists digits, rest :: WritesTag(inner, slug, digits, rest, number)
  {
    if digits, rest :| WritesTag(inner, slug, digits, rest, number) {
      SplitOnceAt(slug + "-" + digits, ']', rest);
      RSplitOnceAt(slug, '-', digits);
    }
    if TagInside(inner) == Some((slug, number)) {
      var (tag, rest) := SplitOnce(inner, ']').value;
      var digits := RSplitOnce(tag, '-').value.1;
      assert ']' !in slug + ['-'] + digits;
      PartsLack(slug, digits);
      assert WritesTag(inner, slug, digits, rest, number);
    }
  }

  lemma {:induction false} PartsLack(slug: string, digits: string)
    requires ']' !in slug + ['-'] + digits
    ensures ']' !in slug && ']' !in digits
  {
    var tag := slug + ['-'] + digits;
    assert forall i :: 0 <= i < |slug| ==> tag[i] == slug[i];
    assert forall i :: 0 <= i < |digits| ==> tag[|slug| + 1 + i] == digits[i];
  }

  predicate Opens(s: string, p: nat) { p + 2 <= |s| && s[p] == '[' && s[p + 1] == '#' }

  /** `find("[#")`. */
  function Find(s: string): (r: Option<nat>)
    ensures r.Some? ==> Opens(s, r.value) && forall p :: 0 <= p < r.value ==> !Opens(s, p)
    ensures r.None? ==> forall p: nat :: !Opens(s, p)
  {
    if |s| < 2 then None
    else if s[0] == '[' && s[1] == '#' then Some(0)
    else
      match Find(s[1..])
      case Some(p) =>
        assert forall q :: 1 <= q <= p ==> (Opens(s, q) <==> Opens(s[1..], q - 1));
        Some(p + 1)
      case None =>
        assert forall q :: q >= 1 ==> (Opens(s, q) <==> Opens(s[1..], q - 1));
        None
  }

  /** The scan of `parse_subject_tag`, for any way to read what follows a `[#`. */
  function Scan<T>(s: string, read: string -> Option<T>): Option<T>
    decreases |s|
  {
    match Find(s)
    case None => None
    case Some(start) =>
      var inner := s[start + 2..];
      if read(inner).Some? then read(inner) else Scan(inner, read)
  }

  /** What can be read at a place. */
  function ReadAt<T>(s: string, p: nat, read: string -> Option<T>): Option<T> {
    if Opens(s, p) then read(s[p + 2..]) else None
  }

  lemma {:induction false} ReadAtTail<T>(s: string, k: nat, p: nat, read: string -> Option<T>)
    requires k <= |s|
    ensures ReadAt(s[k..], p, read) == ReadAt(s, k + p, read)
  {
    assert Opens(s[k..], p) <==> Opens(s, k + p);
    if Opens(s, k + p) {
      assert s[k..][p + 2..] == s[k + p + 2..];
    }
  }

  /** The scan returns what is read at the first place where anything can be. */
  lemma {:induction false} ScanFindsFirst<T>(s: string, p: nat, read: string -> Option<T>)
    requires ReadAt(s, p, read).Some? && forall q :: 0 <= q < p ==> ReadAt(s, q, read).None?
    ensures Scan(s, read) == ReadAt(s, p, read)
    decreases |s|
  {
    var start := Find(s).value;
    if start < p {
      assert ReadAt(s, start, read).None?;
      assert p != start + 1;
      var inner, rest := s[start + 2..], p - start - 2;
      forall q | 0 <= q < rest
        ensures ReadAt(inner, q, read).None?
      {
        ReadAtTail(s, start + 2, q, read);
      }
      ReadAtTail(s, start + 2, rest, read);
      ScanFindsFirst(inner, rest, read);
    }
  }

  /** And nothing exactly where nothing can be read anywhere. */
  lemma {:induction false} ScanMisses<T>(s: string, p: nat, read: string -> Option<T>)
    requires Scan(s, read).None?
    ensures ReadAt(s, p, read).None?
    decreases |s|
  {
    if Find(s).Some? {
      var start := Find(s).value;
      if p >= start + 2 {
        ScanMisses(s[start + 2..], p - start - 2, read);
        ReadAtTail(s, start + 2, p - start - 2, read);
      }
    }
  }

  function Parse(subject: string): Option<Tag> { Scan(subject, TagInside) }

  method ParseSubjectTag(subject: string) returns (tag: Option<Tag>)
    ensures tag == Parse(subject)
  {
    tag := ScanLoop(subject, TagInside);
  }

  method ScanLoop<T>(s: string, read: string -> Option<T>) returns (found: Option<T>)
    ensures found == Scan(s, read)
  {
    var rest := s;
    var start := Find(rest);
    while start.Some?
      invariant start == Find(rest)
      invariant Scan(rest, read) == Scan(s, read)
      decreases |rest|
    {
      var inner := rest[start.value + 2..];
      found := read(inner);
      if found.Some? { return; }
      rest := inner;
      start := Find(rest);
    }
    found := None;
  }

  // ---------------------------------------------------------------- tags survive replies

  /** Slugs that cannot close the tag early; every valid slug is one. */
  predicate Taggable(slug: string) { slug != "" && ']' !in slug }

  lemma {:induction false} ValidSlugIsTaggable(slug: string)
    requires ValidSlug(slug)
    ensures Taggable(slug)
  {}

  lemma {:induction false} NumberParses(n: nat)
    requires n <= U64_MAX
    ensures ParseU64(Decimal(n)) == Some(n) && '-' !in Decimal(n) && ']' !in Decimal(n)
  {
    var s := Decimal(n);
    assert IsDigit(s[0]);
  }

  /** A tag's inside is read back even behind other text, which then belongs to the slug. */
  lemma {:induction false} InsideReadsBack(front: string, number: nat, suffix: string)
    requires ']' !in front && front != "" && number <= U64_MAX
    ensures TagInside(front + "-" + Decimal(number) + "]" + suffix) == Some((front, number))
  {
    NumberParses(number);
    var digits := Decimal(number);
    var tag := front + "-" + digits;
    SplitOnceAt(tag, ']', suffix);
    RSplitOnceAt(front, '-', digits);
  }

  /** A tag that stands behind a prefix opens there. */
  lemma {:induction false} TagOpens(prefix: string, slug: string, number: nat, suffix: string)
    ensures var subject := prefix + TicketSubjectTag(slug, number) + suffix;
            && Opens(subject, |prefix|)
            && subject[|prefix| + 2..] == slug + "-" + Decimal(number) + "]" + suffix
  {
    var subject := prefix + TicketSubjectTag(slug, number) + suffix;
    var body := slug + "-" + Decimal(number) + "]";
    assert TicketSubjectTag(slug, number) == "[#" + body;
    assert subject == prefix + "[#" + (body + suffix);
  }

  /** Behind any prefix without `[#`, and before anything, a tag reads back as exactly its
      slug and number, hyphens in the slug included. */
  lemma {:induction false} TagSurvives(prefix: string, slug: string, number: nat, suffix: string)
    requires Taggable(slug) && number <= U64_MAX
    requires forall p: nat :: !Opens(prefix, p)
    ensures Parse(prefix + TicketSubjectTag(slug, number) + suffix) == Some((slug, number))
  {
    var subject := prefix + TicketSubjectTag(slug, number) + suffix;
    TagOpens(prefix, slug, number, suffix);
    InsideReadsBack(slug, number, suffix);
    forall q | 0 <= q < |prefix|
      ensures ReadAt(subject, q, TagInside).None?
    {
      assert !Opens(prefix, q);
    }
    ScanFindsFirst(subject, |prefix|, TagInside);
  }

  /** A `[#` of the prefix that the prefix does not close. */
  predicate Unclosed(prefix: string, q: nat) { Opens(prefix, q) && ']' !in prefix[q + 2..] }

  /** What a tag behind a prefix reads back as, for every prefix: if the prefix already holds a
      readable tag, that one; else this number, and this slug exactly when the prefix leaves
      no `[#` open, which would swallow the slug. */
  lemma {:induction false} TagBehindPrefix(prefix: string, slug: string, number: nat, suffix: string)
    requires Taggable(slug) && number <= U64_MAX
    ensures var tag := Parse(prefix + TicketSubjectTag(slug, number) + suffix);
            if Parse(prefix).Some? then tag == Parse(prefix)
            else tag.Some? && tag.value.1 == number && (tag.value.0 == slug <==> forall q: nat :: !Unclosed(prefix, q))
  {
    if Parse(prefix).Some? {
      ReadableWins(prefix, TicketSubjectTag(slug, number), suffix);
    } else if exists q: nat :: Unclosed(prefix, q) {
      var q: nat :| Unclosed(prefix, q);
      var first := FirstUnclosed(prefix, q);
      SwallowedTag(prefix, first, slug, number, suffix);
    } else {
      ClosedPrefix(prefix, slug, number, suffix);
    }
  }

  /** A prefix without `]` holds no readable tag, so the number always reads back behind it. */
  lemma {:induction false} NumberSurvives(prefix: string, slug: string, number: nat, suffix: string)
    requires Taggable(slug) && number <= U64_MAX && ']' !in prefix
    ensures var tag := Parse(prefix + TicketSubjectTag(slug, number) + suffix);
            tag.Some? && tag.value.1 == number && (tag.value.0 == slug <==> Find(prefix).None?)
  {
    ReadableCloses(prefix);
    TagBehindPrefix(prefix, slug, number, suffix);
    if Find(prefix).Some? {
      assert Unclosed(prefix, Find(prefix).value);
    }
  }

  lemma {:induction false} ReadableCloses(s: string)
    ensures Parse(s).Some? ==> ']' in s
  {
    if Parse(s).Some? {
      var p := FirstReadable(s, TagInside);
    }
  }

  /** Where the scan found what it returned. */
  lemma {:induction false} FirstReadable<T>(s: string, read: string -> Option<T>) returns (p: nat)
    requires Scan(s, read).Some?
    ensures ReadAt(s, p, read) == Scan(s, read) && forall q :: 0 <= q < p ==> ReadAt(s, q, read).None?
    decreases |s|
  {
    var start := Find(s).value;
    var inner := s[start + 2..];
    if read(inner).Some? {
      p := start;
    } else {
      var p' := FirstReadable(inner, read);
      p := start + 2 + p';
      ReadAtTail(s, start + 2, p', read);
      forall q | 0 <= q < p
        ensures ReadAt(s, q, read).None?
      {
        EarlierUnreadable(s, start, inner, p', read, q);
      }
    }
  }

  lemma {:induction false} EarlierUnreadable<T>(s: string, start: nat, inner: string, p: nat,
                                                read: string -> Option<T>, q: nat)
    requires Find(s) == Some(start) && inner == s[start + 2..] && read(inner).None? && q < start + 2 + p
    requires forall k :: 0 <= k < p ==> ReadAt(inner, k, read).None?
    ensures ReadAt(s, q, read).None?
  {
    if q >= start + 2 {
      assert ReadAt(inner, q - start - 2, read).None?;
      ReadAtTail(s, start + 2, q - start - 2, read);
    }
  }

  /** Once closed, what is inside does not depend on what follows. */
  lemma {:induction false} ClosedInside(inner: string, more: string)
    requires ']' in inner
    ensures TagInside(inner + more) == TagInside(inner)
  {
    var (tag, rest) := SplitOnce(inner, ']').value;
    SplitOnceAt(tag, ']', rest + more);
    assert inner + more == tag + [']'] + (rest + more);
  }

  /** A place that the prefix closes, or at which nothing opens, reads the same with a tag behind. */
  lemma {:induction false} ReadBefore(prefix: string, tagged: string, suffix: string, q: nat)
    requires |tagged| > 0 && tagged[0] == '[' && q < |prefix| && !Unclosed(prefix, q)
    ensures ReadAt(prefix + tagged + suffix, q, TagInside) == ReadAt(prefix, q, TagInside)
  {
    var s := prefix + tagged + suffix;
    assert s == prefix + (tagged + suffix);
    if Opens(prefix, q) {
      assert s[q + 2..] == prefix[q + 2..] + (tagged + suffix);
      ClosedInside(prefix[q + 2..], tagged + suffix);
    } else {
      assert !Opens(s, q);
    }
  }

  lemma {:induction false} ReadableWins(prefix: string, tagged: string, suffix: string)
    requires |tagged| > 0 && tagged[0] == '[' && Parse(prefix).Some?
    ensures Parse(prefix + tagged + suffix) == Parse(prefix)
  {
    var p := FirstReadable(prefix, TagInside);
    assert ']' in prefix[p + 2..];
    forall q | 0 <= q <= p
      ensures ReadAt(prefix + tagged + suffix, q, TagInside) == ReadAt(prefix, q, TagInside)
    {
      ClosedEarlier(prefix, q, p);
      ReadBefore(prefix, tagged, suffix, q);
    }
    ScanFindsFirst(prefix + tagged + suffix, p, TagInside);
  }

  lemma {:induction false} ClosedEarlier(prefix: string, q: nat, p: nat)
    requires q <= p && p + 2 <= |prefix| && ']' in prefix[p + 2..]
    ensures !Unclosed(prefix, q)
  {
    var i :| 0 <= i < |prefix[p + 2..]| && prefix[p + 2..][i] == ']';
    assert prefix[q + 2..][i + p - q] == ']';
  }

  lemma {:induction false} FirstUnclosed(prefix: string, q: nat) returns (first: nat)
    requires Unclosed(prefix, q)
    ensures Unclosed(prefix, first) && forall p :: 0 <= p < first ==> !Unclosed(prefix, p)
    decreases q
  {
    if p :| 0 <= p < q && Unclosed(prefix, p) {
      first := FirstUnclosed(prefix, p);
    } else {
      first := q;
    }
  }

  lemma {:induction false} ClosedPrefix(prefix: string, slug: string, number: nat, suffix: string)
    requires Taggable(slug) && number <= U64_MAX && Parse(prefix).None? && forall q: nat :: !Unclosed(prefix, q)
    ensures Parse(prefix + TicketSubjectTag(slug, number) + suffix) == Some((slug, number))
  {
    var tagged := TicketSubjectTag(slug, number);
    TagOpens(prefix, slug, number, suffix);
    InsideReadsBack(slug, number, suffix);
    forall q | 0 <= q < |prefix|
      ensures ReadAt(prefix + tagged + suffix, q, TagInside).None?
    {
      ReadBefore(prefix, tagged, suffix, q);
      ScanMisses(prefix, q, TagInside);
    }
    ScanFindsFirst(prefix + tagged + suffix, |prefix|, TagInside);
  }

  lemma {:induction false} SwallowedTag(prefix: string, start: nat, slug: string, number: nat, suffix: string)
    requires Taggable(slug) && number <= U64_MAX && Parse(prefix).None?
    requires Unclosed(prefix, start) && forall q :: 0 <= q < start ==> !Unclosed(prefix, q)
    ensures Parse(prefix + TicketSubjectTag(slug, number) + suffix) == Some((prefix[start + 2..] + "[#" + slug, number))
  {
    var tagged, front := TicketSubjectTag(slug, number), prefix[start + 2..] + "[#" + slug;
    SwallowedInner(prefix, start, slug, number, suffix);
    InsideReadsBack(front, number, suffix);
    forall q | 0 <= q < start
      ensures ReadAt(prefix + tagged + suffix, q, TagInside).None?
    {
      ReadBefore(prefix, tagged, suffix, q);
      ScanMisses(prefix, q, TagInside);
    }
    ScanFindsFirst(prefix + tagged + suffix, start, TagInside);
  }

  lemma {:induction false} SwallowedInner(prefix: string, start: nat, slug: string, number: nat, suffix: string)
    requires Opens(prefix, start)
    ensures var subject := prefix + TicketSubjectTag(slug, number) + suffix;
            && Opens(subject, start)
            && subject[start + 2..] == prefix[start + 2..] + "[#" + slug + "-" + Decimal(number) + "]" + suffix
  {}

  // ---------------------------------------------------------------- tagging

  function TagSubject(slug: string, number: nat, subject: string): string {
    if Parse(subject).Some? then subject else TicketSubjectTag(slug, number) + " " + subject
  }

  /** Tagging twice is tagging once, for the same ticket and for any other; the result always
      parses, and names this ticket exactly when the subject named none or this one. */
  lemma {:induction false} TagSubjectSpec(slug: string, number: nat, subject: string, slug': string, number': nat)
    requires Taggable(slug) && number <= U64_MAX
    ensures var tagged := TagSubject(slug, number, subject);
            && Parse(tagged).Some?
            && TagSubject(slug', number', tagged) == tagged
            && (Parse(tagged) == Some((slug, number)) <==> Parse(subject).None? || Parse(subject) == Some((slug, number)))
            && (Parse(subject).Some? ==> tagged == subject)
            && (Parse(subject).None? ==> tagged == "[#" + slug + "-" + Decimal(number) + "]" + " " + subject)
  {
    TagSurvives("", slug, number, " " + subject);
    assert "" + TicketSubjectTag(slug, number) + (" " + subject) == TicketSubjectTag(slug, number) + " " + subject;
  }
}
