/**
 * The signed audit trail: each row carries a keyed hash of its canonical text, and
 * verification recomputes it.
 */
module AuditTrail {
  import opened Prelude
  import opened AuditCanon
  import opened AuditUnique
  import opened AuditBars
  import opened Text

  /** An organisation or user id: the database generates it and both columns are foreign keys. */
  type Id = s: string | '|' !in s

  /** What a date's ISO text is made of. */
  type IsoText = s: string | forall i :: 0 <= i < |s| ==> '0' <= s[i] <= '9' || s[i] in "-:.TZ+"

  datatype Action = Create | Update | Delete | Login | Logout | Join | Leave | Block | Unblock | Export

  function ActionName(a: Action): (t: string)
    ensures '|' !in t
  {
    match a
    case Create => "create" case Update => "update" case Delete => "delete" case Login => "login"
    case Logout => "logout" case Join => "join" case Leave => "leave" case Block => "block"
    case Unblock => "unblock" case Export => "export"
  }

  /** A row as the application logs it, and as its columns allow it to be. The address is not signed. */
  datatype Entry = Entry(
    organizationId: Option<Id>, actorId: Option<Id>, targetId: Option<string>,
    targetType: string, action: Action, metadata: Option<Value>, requestId: Option<string>, createdAt: IsoText,
    ipAddress: Option<string>)

  /** A row as the database returns it. */
  datatype Row = Row(id: string, entry: Entry, integrityHmac: Option<string>)

  function MetadataOf(e: Entry): Value {
    if e.metadata.None? || e.metadata.value.Undefined? then Null else e.metadata.value
  }

  /** The signed columns other than the metadata; an absent one is signed as empty. */
  function SignedFields(e: Entry): seq<string> {
    [e.organizationId.GetOr(""), e.actorId.GetOr(""), e.targetId.GetOr(""),
     e.targetType, ActionName(e.action), e.requestId.GetOr(""), e.createdAt]
  }

  /** The columns that are not free text. */
  function Owner(e: Entry): string {
    "v1|" + e.organizationId.GetOr("") + "|" + e.actorId.GetOr("")
  }

  /** Three columns of free text, with the action between them. */
  function FreeText(e: Entry): string {
    Quad(e.targetId.GetOr(""), e.targetType, ActionName(e.action), e.requestId.GetOr(""))
  }

  function Quad(a: string, b: string, x: string, r: string): string {
    a + "|" + b + "|" + x + "|" + r
  }

  /** The version tag, the eight signed columns and the metadata, joined by bars. */
  function Canonical(e: Entry): string {
    Owner(e) + "|" + FreeText(e) + "|" + e.createdAt + "|" + StableStringify(MetadataOf(e))
  }

  /** `hmac` is the keyed hash in hex; `unhex` reads hex as bytes. */
  predicate IsValid(r: Row, hmac: string -> string, unhex: string -> seq<int>) {
    r.integrityHmac.Some? && unhex(hmac(Canonical(r.entry))) == unhex(r.integrityHmac.value)
  }

  /** Verification counts the row as tampered with: it carries a hash, and the hash is not its own. */
  predicate Reported(r: Row, hmac: string -> string, unhex: string -> seq<int>) {
    Truthy(r.integrityHmac) && !IsValid(r, hmac, unhex)
  }

  /** The keyed hash tells any two texts apart. */
  ghost predicate Separates(hmac: string -> string, unhex: string -> seq<int>) {
    forall a, b :: unhex(hmac(a)) == unhex(hmac(b)) ==> a == b
  }

  // ----- rows left alone -----

  /** The row as written, read back with nothing changed but the order of metadata keys. */
  predicate Untouched(e: Entry, r: Row, hmac: string -> string) {
    && r.integrityHmac == Some(hmac(Canonical(e)))
    && SignedFields(r.entry) == SignedFields(e)
    && Plain(MetadataOf(r.entry))
    && Same(Stored(MetadataOf(e)), MetadataOf(r.entry))
  }

  lemma SameFieldsSameHead(e: Entry, f: Entry)
    requires SignedFields(e) == SignedFields(f)
    ensures Owner(e) == Owner(f) && FreeText(e) == FreeText(f) && e.createdAt == f.createdAt
    ensures Canonical(e) == Canonical(f) <==> StableStringify(MetadataOf(e)) == StableStringify(MetadataOf(f))
  {
    assert SignedFields(e)[0] == SignedFields(f)[0] && SignedFields(e)[1] == SignedFields(f)[1];
    assert SignedFields(e)[2] == SignedFields(f)[2] && SignedFields(e)[3] == SignedFields(f)[3];
    assert SignedFields(e)[4] == SignedFields(f)[4] && SignedFields(e)[5] == SignedFields(f)[5];
    assert SignedFields(e)[6] == SignedFields(f)[6];
    var head := Owner(e) + "|" + FreeText(e) + "|" + e.createdAt + "|";
    if Canonical(e) == Canonical(f) {
      Cut(head, StableStringify(MetadataOf(e)), head, StableStringify(MetadataOf(f)));
    }
  }

  /**
   * An untouched row verifies whenever its metadata had no undefined member and no date object;
   * and, when the keyed hash separates texts, only then.
   */
  lemma UntouchedRowVerifiesIff(e: Entry, r: Row, hmac: string -> string, unhex: string -> seq<int>)
    requires Ok(MetadataOf(e)) && Untouched(e, r, hmac)
    ensures Clean(MetadataOf(e)) ==> IsValid(r, hmac, unhex)
    ensures Separates(hmac, unhex) ==> (IsValid(r, hmac, unhex) <==> Clean(MetadataOf(e)))
  {
    RoundTripKeepsTextIff(MetadataOf(e), MetadataOf(r.entry));
    SameFieldsSameHead(e, r.entry);
  }

  // ----- rows changed behind the application's back -----

  /** Some action's name stands in the text, at its start or after a bar, with a bar behind it. */
  ghost predicate HidesAction(r: string) {
    exists i, j, x: Action :: HidesAt(r, i, j, x)
  }

  predicate HidesAt(r: string, i: int, j: int, x: Action) {
    0 <= i <= j < |r| && r[i..j] == ActionName(x) && r[j] == '|' && (i == 0 || r[i - 1] == '|')
  }

  /** The free text can be read in one way only. */
  ghost predicate OneReading(e: Entry) {
    '|' !in e.targetId.GetOr("") && '|' !in e.targetType && !HidesAction(e.requestId.GetOr(""))
  }

  /** Bars at the three places where the first four fields are joined. */
  lemma QuadBars(a: string, b: string, x: string, r: string)
    ensures var s := Quad(a, b, x, r); var i, j, k := |a|, |a| + 1 + |b|, |a| + |b| + |x| + 2;
            && |s| == k + 1 + |r| && s[i] == s[j] == s[k] == '|'
            && s[..i] == a && s[i + 1..j] == b && s[j + 1..k] == x && s[k + 1..] == r
  {
    var s := Quad(a, b, x, r);
    var p := a + "|" + b + "|" + x;
    assert s == p + "|" + r;
    assert s[..|p|] == p && p == (a + "|" + b) + "|" + x;
    assert p[..|a|] == a && p[|a| + 1..|a| + 1 + |b|] == b && p[|a| + |b| + 2..] == x;
    assert s[..|a|] == p[..|a|] && s[|a| + 1..|a| + 1 + |b|] == p[|a| + 1..|a| + 1 + |b|];
    assert s[|a| + |b| + 2..|p|] == p[|a| + |b| + 2..];
    assert s[|a|] == p[|a|] && s[|a| + 1 + |b|] == p[|a| + 1 + |b|];
  }

  /** No other bar stands before the third. */
  lemma NoOtherBar(a: string, b: string, x: string, r: string, m: nat)
    requires '|' !in a && '|' !in b && '|' !in x
    requires m < |a| + |b| + |x| + 2 && m != |a| && m != |a| + 1 + |b|
    ensures m < |Quad(a, b, x, r)| && Quad(a, b, x, r)[m] != '|'
  {
    QuadBars(a, b, x, r);
    var s, i, j, k := Quad(a, b, x, r), |a|, |a| + 1 + |b|, |a| + |b| + |x| + 2;
    if m < i {
      assert s[m] == s[..i][m];
    } else if m < j {
      assert s[m] == s[i + 1..j][m - i - 1];
    } else {
      NoBarInName(a, b, x, r, m);
    }
  }

  lemma NoBarInName(a: string, b: string, x: string, r: string, m: nat)
    requires '|' !in x && |a| + 1 + |b| < m < |a| + |b| + |x| + 2
    ensures m < |Quad(a, b, x, r)| && Quad(a, b, x, r)[m] != '|'
  {
    QuadBars(a, b, x, r);
    var s, j, k := Quad(a, b, x, r), |a| + 1 + |b|, |a| + |b| + |x| + 2;
    assert s[j + 1..k][m - j - 1] == s[m];
  }

  /** In a text cut apart after its third bar, a later action name is hidden in the rest. */
  lemma LaterNameIsHidden(s: string, k: nat, j: nat, m: nat, x: Action)
    requires k <= j < m < |s| && s[k] == s[j] == s[m] == '|' && s[j + 1..m] == ActionName(x)
    ensures HidesAction(s[k + 1..])
  {
    var r, lo, hi := s[k + 1..], j - k, m - (k + 1);
    assert r[lo..hi] == s[j + 1..m];
    assert HidesAt(r, lo, hi, x);
  }

  lemma BarsBefore(a: string, b: string, x: string, r: string, m: nat)
    requires '|' !in a && '|' !in b && '|' !in x && m < |Quad(a, b, x, r)| && Quad(a, b, x, r)[m] == '|'
    ensures m == |a| || m == |a| + 1 + |b| || m >= |a| + |b| + |x| + 2
  {
    if m != |a| && m != |a| + 1 + |b| && m < |a| + |b| + |x| + 2 { NoOtherBar(a, b, x, r, m); }
  }

  /** If the other reading's name ended later, it would be hidden in the rest. */
  lemma NameEndsNoLater(a: string, b: string, x: string, r: string, a': string, b': string, x': Action, r': string)
    requires !HidesAction(r)
    requires Quad(a, b, x, r) == Quad(a', b', ActionName(x'), r')
    ensures |a'| + |b'| + |ActionName(x')| <= |a| + |b| + |x|
  {
    var s := Quad(a, b, x, r);
    var k, j', k' := |a| + |b| + |x| + 2, |a'| + 1 + |b'|, |a'| + |b'| + |ActionName(x')| + 2;
    QuadBars(a, b, x, r);
    QuadBars(a', b', ActionName(x'), r');
    if k < k' {
      if j' < k { NoBarInName(a', b', ActionName(x'), r', k); }
      LaterNameIsHidden(s, k, j', k', x');
    }
  }

  /** Three bars need a third field. */
  lemma ThirdBarAgrees(a: string, b: string, x: string, r: string, a': string, b': string, x': string, r': string)
    requires '|' !in a && '|' !in b && '|' !in x
    requires Quad(a, b, x, r) == Quad(a', b', x', r') && |a'| + |b'| + |x'| <= |a| + |b| + |x|
    ensures |a'| == |a| && |b'| == |b| && |x'| == |x|
  {
    QuadBars(a', b', x', r');
    BarsBefore(a, b, x, r, |a'|);
    BarsBefore(a, b, x, r, |a'| + 1 + |b'|);
    BarsBefore(a, b, x, r, |a'| + |b'| + |x'| + 2);
  }

  /** A text that hides no action is cut apart in one way. */
  lemma OneReadingIsUnique(a: string, b: string, x: string, r: string, a': string, b': string, x': Action, r': string)
    requires '|' !in a && '|' !in b && '|' !in x && !HidesAction(r)
    requires Quad(a, b, x, r) == Quad(a', b', ActionName(x'), r')
    ensures a == a' && b == b' && x == ActionName(x') && r == r'
  {
    NameEndsNoLater(a, b, x, r, a', b', x', r');
    ThirdBarAgrees(a, b, x, r, a', b', ActionName(x'), r');
    QuadBars(a, b, x, r);
    QuadBars(a', b', ActionName(x'), r');
  }

  lemma BarMoves(p: string, q: string, rest: string)
    requires '|' in p
    ensures exists i :: 0 <= i < |p| && p[..i] + "|" + (p[i + 1..] + "|" + q) + rest == p + "|" + q + rest
  {
    var i :| 0 <= i < |p| && p[i] == '|';
    assert p == p[..i] + "|" + p[i + 1..];
    assert p[..i] + "|" + (p[i + 1..] + "|" + q) + rest == (p[..i] + "|" + p[i + 1..]) + "|" + q + rest;
  }

  lemma QuadShape(a: string, b: string, x: string, r: string)
    ensures Quad(a, b, x, r) == a + "|" + b + ("|" + x + "|" + r)
    ensures Quad(a, b, x, r) == a + "|" + (b + ("|" + x + "|" + r))
  {
  }

  lemma HiddenText(r: string, i: int, j: int, name: string)
    requires 0 <= i <= j < |r| && r[i..j] == name && r[j] == '|' && (i == 0 || r[i - 1] == '|')
    ensures (if i == 0 then "" else "|" + r[..i - 1]) + ("|" + name + "|" + r[j + 1..]) == "|" + r
  {
    var rest := name + "|" + r[j + 1..];
    assert rest == r[i..];
    if i > 0 {
      assert "|" + r[..i - 1] + ("|" + rest) == "|" + (r[..i - 1] + "|" + rest);
      assert r[..i - 1] + "|" + rest == r;
    }
    assert "|" + name + "|" + r[j + 1..] == "|" + rest;
  }

  lemma HiddenMoves(b: string, x: string, r: string, i: int, j: int, y: Action)
    requires HidesAt(r, i, j, y)
    ensures var before := if i == 0 then "" else "|" + r[..i - 1];
            b + "|" + x + before + ("|" + ActionName(y) + "|" + r[j + 1..]) == b + ("|" + x + "|" + r)
  {
    HiddenText(r, i, j, ActionName(y));
    var before, rest := if i == 0 then "" else "|" + r[..i - 1], "|" + ActionName(y) + "|" + r[j + 1..];
    assert (b + "|" + x) + before + rest == (b + "|" + x) + (before + rest);
    assert (b + "|" + x) + ("|" + r) == b + ("|" + x + "|" + r);
  }

  /** A text that can be cut apart in two ways. */
  lemma SecondReading(a: string, b: string, x: Action, r: string)
    returns (a': string, b': string, x': Action, r': string)
    requires '|' in a || '|' in b || HidesAction(r)
    ensures Quad(a', b', ActionName(x'), r') == Quad(a, b, ActionName(x), r)
    ensures a' != a || b' != b
  {
    var t := ActionName(x);
    QuadShape(a, b, t, r);
    if '|' in a {
      BarMoves(a, b, "|" + t + "|" + r);
      var i :| 0 <= i < |a|
          && a[..i] + "|" + (a[i + 1..] + "|" + b) + ("|" + t + "|" + r) == a + "|" + b + ("|" + t + "|" + r);
      a', b', x', r' := a[..i], a[i + 1..] + "|" + b, x, r;
    } else if '|' in b {
      var i :| 0 <= i < |b| && b[i] == '|';
      a', b', x', r' := a + "|" + b[..i], b[i + 1..], x, r;
      assert b == b[..i] + "|" + b[i + 1..];
      assert a' + "|" + b' == a + "|" + b;
    } else {
      var i, j, y: Action :| HidesAt(r, i, j, y);
      HiddenMoves(b, t, r, i, j, y);
      a', b', x', r' := a, b + "|" + t + (if i == 0 then "" else "|" + r[..i - 1]), y, r[j + 1..];
    }
    QuadShape(a', b', ActionName(x'), r');
  }

  /** Two heads, each followed by a bar and a canonical text: the texts agree, and so do the heads. */
  lemma LastFieldAgrees(p: string, q: string, v: Value, w: Value)
    requires Plain(v) && Plain(w)
    requires p + "|" + StableStringify(v) == q + "|" + StableStringify(w)
    ensures p == q && StableStringify(v) == StableStringify(w)
  {
    var t, u := StableStringify(v), StableStringify(w);
    var s := p + "|" + t;
    assert s[|p|] == '|' && s[|p| + 1..] == t && s[|q|] == '|' && s[|q| + 1..] == u;
    assert |t| > |u| ==> EndsAfterBar(t, u);
    assert |u| > |t| ==> EndsAfterBar(u, t);
    NoTextEndsAfterBar(v, w);
    NoTextEndsAfterBar(w, v);
    Cut(p + "|", t, q + "|", u);
    Cut(p, "|", q, "|");
  }

  /** Cut at the last bar. */
  lemma CutAtLastBar(p: string, x: string, q: string, y: string)
    requires '|' !in x && '|' !in y && p + "|" + x == q + "|" + y
    ensures p == q && x == y
  {
    var s := p + "|" + x;
    assert s == q + "|" + y && s[|p|] == '|' && s[|q|] == '|';
    assert forall k :: |p| < k < |s| ==> s[k] == x[k - |p| - 1];
    assert forall k :: |q| < k < |s| ==> s[k] == y[k - |q| - 1];
    assert |p| == |q|;
    Cut(p + "|", x, q + "|", y);
    Cut(p, "|", q, "|");
  }

  lemma OwnerShape(o: string, a: string, f: string)
    ensures "v1|" + o + "|" + a + "|" + f == "v1|" + (o + "|" + (a + "|" + f))
  {
    var head := "v1|" + o + "|";
    assert head + a + "|" + f == head + (a + "|" + f);
    assert head + (a + "|" + f) == "v1|" + (o + "|" + (a + "|" + f));
  }

  lemma OwnersAgree(o: string, a: string, f: string, o': string, a': string, f': string)
    requires '|' !in o && '|' !in a && '|' !in o' && '|' !in a'
    requires "v1|" + o + "|" + a + "|" + f == "v1|" + o' + "|" + a' + "|" + f'
    ensures o == o' && a == a' && f == f'
  {
    OwnerShape(o, a, f);
    OwnerShape(o', a', f');
    Cut("v1|", o + "|" + (a + "|" + f), "v1|", o' + "|" + (a' + "|" + f'));
    CutAtBar(o, a + "|" + f, o', a' + "|" + f');
    CutAtBar(a, f, a', f');
  }

  /** Columns and plain metadata behind equal texts are equal, when the first row has one reading. */
  lemma EqualTextsEqualRows(e: Entry, v: Value, f: Entry)
    requires OneReading(e) && Plain(v) && Plain(MetadataOf(f))
    requires Owner(e) + "|" + FreeText(e) + "|" + e.createdAt + "|" + StableStringify(v) == Canonical(f)
    ensures SignedFields(e) == SignedFields(f) && Same(v, MetadataOf(f))
  {
    LastFieldAgrees(Owner(e) + "|" + FreeText(e) + "|" + e.createdAt, Owner(f) + "|" + FreeText(f) + "|" + f.createdAt,
                    v, MetadataOf(f));
    TextDeterminesValue(v, MetadataOf(f));
    CutAtLastBar(Owner(e) + "|" + FreeText(e), e.createdAt, Owner(f) + "|" + FreeText(f), f.createdAt);
    OwnersAgree(e.organizationId.GetOr(""), e.actorId.GetOr(""), FreeText(e),
                f.organizationId.GetOr(""), f.actorId.GetOr(""), FreeText(f));
    OneReadingIsUnique(e.targetId.GetOr(""), e.targetType, ActionName(e.action), e.requestId.GetOr(""),
                       f.targetId.GetOr(""), f.targetType, f.action, f.requestId.GetOr(""));
  }

  /** Signed columns and metadata are what was signed, up to the order of keys. */
  predicate Unchanged(e: Entry, f: Entry) {
    SignedFields(f) == SignedFields(e) && Same(Stored(MetadataOf(e)), MetadataOf(f))
  }

  /** The row as anyone with write access to the table may leave it: any columns, the hash kept or cleared. */
  predicate Altered(e: Entry, r: Row, hmac: string -> string) {
    Plain(MetadataOf(r.entry)) && (r.integrityHmac == Some(hmac(Canonical(e))) || !Truthy(r.integrityHmac))
  }

  /** However it was altered, the row is reported exactly when it has a hash and a signed part changed. */
  ghost predicate ReportsExactly(e: Entry, hmac: string -> string, unhex: string -> seq<int>) {
    forall r: Row :: Altered(e, r, hmac) ==> ReportedIfChanged(e, r, hmac, unhex)
  }

  predicate ReportedIfChanged(e: Entry, r: Row, hmac: string -> string, unhex: string -> seq<int>) {
    Reported(r, hmac, unhex) <==> Truthy(r.integrityHmac) && !Unchanged(e, r.entry)
  }

  lemma AlteredRow(e: Entry, r: Row, hmac: string -> string, unhex: string -> seq<int>)
    requires Ok(MetadataOf(e)) && Separates(hmac, unhex) && OneReading(e) && Clean(MetadataOf(e))
    requires Altered(e, r, hmac)
    ensures ReportedIfChanged(e, r, hmac, unhex)
  {
    var v := MetadataOf(e);
    StoredIsPlain(v);
    SeenHasSameText(v);
    StoredSeenIffClean(v);
    TextDeterminesValue(Stored(v), Seen(v));
    if Truthy(r.integrityHmac) {
      if Unchanged(e, r.entry) {
        RoundTripKeepsTextIff(v, MetadataOf(r.entry));
        SameFieldsSameHead(e, r.entry);
      } else if IsValid(r, hmac, unhex) {
        assert Canonical(e) == Canonical(r.entry);
        EqualTextsEqualRows(e, Stored(v), r.entry);
      }
    }
  }

  /** A row with a second reading, or with metadata the database will not give back, has an unreported change. */
  lemma UnreportedChange(e: Entry, hmac: string -> string, unhex: string -> seq<int>) returns (r: Row)
    requires Ok(MetadataOf(e)) && !(OneReading(e) && Clean(MetadataOf(e))) && hmac(Canonical(e)) != ""
    ensures Altered(e, r, hmac) && Truthy(r.integrityHmac) && !Unchanged(e, r.entry) && !Reported(r, hmac, unhex)
    ensures r.entry.organizationId == e.organizationId && r.entry.actorId == e.actorId
            && r.entry.createdAt == e.createdAt
  {
    var v := MetadataOf(e);
    SeenHasSameText(v);
    StoredSeenIffClean(v);
    var f := e.(metadata := Some(Seen(v)));
    assert SignedFields(f) == SignedFields(e);
    SameFieldsSameHead(e, f);
    if !OneReading(e) {
      var a, b, x, q := SecondReading(e.targetId.GetOr(""), e.targetType, e.action, e.requestId.GetOr(""));
      var g := f.(targetId := Some(a), targetType := b, action := x, requestId := Some(q));
      assert SignedFields(g)[2] != SignedFields(e)[2] || SignedFields(g)[3] != SignedFields(e)[3];
      assert FreeText(g) == FreeText(e) && Owner(g) == Owner(e);
      r := Row("", g, Some(hmac(Canonical(e))));
    } else {
      r := Row("", f, Some(hmac(Canonical(e))));
    }
  }

  /**
   * Altered rows that kept a hash are reported for exactly the changes to signed columns and metadata if
   * and only if the target columns hold no bar, the request id hides no action, and the metadata held no
   * undefined member and no date object.
   */
  lemma ReportsExactlyIff(e: Entry, hmac: string -> string, unhex: string -> seq<int>)
    requires Ok(MetadataOf(e)) && Separates(hmac, unhex) && hmac(Canonical(e)) != ""
    ensures ReportsExactly(e, hmac, unhex) <==> OneReading(e) && Clean(MetadataOf(e))
  {
    if OneReading(e) && Clean(MetadataOf(e)) {
      forall r: Row | Altered(e, r, hmac) ensures ReportedIfChanged(e, r, hmac, unhex) {
        AlteredRow(e, r, hmac, unhex);
      }
    } else {
      var r := UnreportedChange(e, hmac, unhex);
      assert !ReportedIfChanged(e, r, hmac, unhex);
    }
  }

  /** The address a row was written from is not signed: changing it alone is never reported. */
  lemma AddressChangeIsUnreported(e: Entry, r: Row, ip: Option<string>, hmac: string -> string,
                                  unhex: string -> seq<int>)
    requires Ok(MetadataOf(e)) && Clean(MetadataOf(e)) && Untouched(e, r, hmac)
    ensures var forged := r.(entry := r.entry.(ipAddress := ip));
            Altered(e, forged, hmac) && !Reported(forged, hmac, unhex)
  {
    var forged := r.(entry := r.entry.(ipAddress := ip));
    UntouchedRowVerifiesIff(e, forged, hmac, unhex);
  }

  /** A row whose hash was cleared is never reported, whatever else was changed: it counts as never signed. */
  lemma ClearedHashIsUnreported(e: Entry, r: Row, hmac: string -> string, unhex: string -> seq<int>)
    requires Plain(MetadataOf(r.entry)) && (r.integrityHmac == None || r.integrityHmac == Some(""))
    ensures Altered(e, r, hmac) && !Reported(r, hmac, unhex)
    ensures Mismatched([r], hmac, unhex) == [] && Signed([r]) == 0
  {
    assert [r][..0] == [];
  }

  /**
   * The caller's own `x-request-id` header is enough: an update signed with the request id "create|x"
   * reads as a creation, with the request id "x".
   */
  lemma RequestIdHidesAction(e: Entry)
    requires e.targetType == "User" && e.action == Update && e.requestId == Some("create|x")
    ensures var forged := e.(targetType := "User|update", action := Create, requestId := Some("x"));
            Canonical(forged) == Canonical(e) && !OneReading(e)
  {
    var forged := e.(targetType := "User|update", action := Create, requestId := Some("x"));
    var a := e.targetId.GetOr("");
    assert Quad(a, "User|update", "create", "x") == a + "|" + "User|update|create|x";
    assert Quad(a, "User", "update", "create|x") == a + "|" + "User|update|create|x";
    assert HidesAt("create|x", 0, 6, Create);
  }

  datatype Report = Report(checked: nat, signed: nat, valid: nat, unsigned: nat, mismatched: seq<string>)

  function Signed(rows: seq<Row>): nat {
    if rows == [] then 0 else Signed(rows[..|rows| - 1]) + (if Truthy(rows[|rows| - 1].integrityHmac) then 1 else 0)
  }

  function Mismatched(rows: seq<Row>, hmac: string -> string, unhex: string -> seq<int>): seq<string> {
    if rows == [] then [] else
      var last := rows[|rows| - 1];
      Mismatched(rows[..|rows| - 1], hmac, unhex)
      + (if Reported(last, hmac, unhex) then [last.id] else [])
  }

  method VerifyIntegrity(rows: seq<Row>, secretSet: bool, hmac: string -> string,
                         unhex: string -> seq<int>) returns (r: Report)
    ensures r.checked == |rows| && r.checked == r.signed + r.unsigned && r.signed == r.valid + |r.mismatched|
    ensures secretSet ==> r.signed == Signed(rows) && r.mismatched == Mismatched(rows, hmac, unhex)
    ensures !secretSet ==> r.signed == 0
  {
    if !secretSet {
      return Report(|rows|, 0, 0, |rows|, []);
    }
    var signed, valid := 0, 0;
    var mismatched: seq<string> := [];
    for i := 0 to |rows|
      invariant 0 <= signed <= i && 0 <= valid && signed == valid + |mismatched|
      invariant signed == Signed(rows[..i]) && mismatched == Mismatched(rows[..i], hmac, unhex)
    {
      assert rows[..i + 1][..i] == rows[..i];
      if Truthy(rows[i].integrityHmac) {
        signed := signed + 1;
        if IsValid(rows[i], hmac, unhex) {
          valid := valid + 1;
        } else {
          mismatched := mismatched + [rows[i].id];
        }
      }
    }
    assert rows[..|rows|] == rows;
    return Report(|rows|, signed, valid, |rows| - signed, mismatched);
  }

  /** A page of untouched rows with clean metadata reports no mismatch. */
  lemma {:induction false} UntouchedPageIsClean(es: seq<Entry>, rows: seq<Row>, hmac: string -> string,
                                                unhex: string -> seq<int>)
    requires |es| == |rows|
    requires forall i :: 0 <= i < |rows| ==>
               Ok(MetadataOf(es[i])) && Clean(MetadataOf(es[i])) && Untouched(es[i], rows[i], hmac)
    ensures Mismatched(rows, hmac, unhex) == []
  {
    if rows != [] {
      var n := |rows| - 1;
      UntouchedPageIsClean(es[..n], rows[..n], hmac, unhex);
      UntouchedRowVerifiesIff(es[n], rows[n], hmac, unhex);
    }
  }
}
