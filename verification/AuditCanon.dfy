/**
 * The canonical text of audit metadata: a JSON rendering with sorted keys. It depends
 * only on the value, not on the order keys are stored in, and it determines the value.
 */
module AuditCanon {
  import opened Prelude

  /** JavaScript values as metadata holds them; a number is its own canonical text. */
  datatype Value =
    | Null
    | Undefined
    | Bool(b: bool)
    | Num(text: string)
    | Str(s: string)
    | Date(iso: string)
    | Arr(items: Values)
    | Obj(fields: Fields)

  datatype Values = Nil | Cons(head: Value, tail: Values)
  datatype Fields = End | Field(key: string, value: Value, rest: Fields)

  // ----- fields by key -----

  function Keys(f: Fields): set<string> {
    match f
    case End => {}
    case Field(k, _, rest) => {k} + Keys(rest)
  }

  function Get(f: Fields, k: string): (v: Value)
    requires k in Keys(f)
    ensures v < f
  {
    if f.key == k then f.value else Get(f.rest, k)
  }

  /** The characters of a JSON number; NaN and the infinities are rendered as null. */
  predicate NumText(t: string) {
    t != "" && ('0' <= t[0] <= '9' || t[0] == '-') && forall i :: 0 <= i < |t| ==> '0' <= t[i] <= '9' || t[i] in "-+.e"
  }

  /** Keys are distinct at every depth, and number texts look like numbers. */
  predicate Ok(v: Value) {
    match v
    case Num(t) => NumText(t)
    case Arr(items) => OkItems(items)
    case Obj(f) => OkFields(f)
    case _ => true
  }

  predicate OkItems(vs: Values) {
    match vs
    case Nil => true
    case Cons(v, rest) => Ok(v) && OkItems(rest)
  }

  predicate OkFields(f: Fields) {
    match f
    case End => true
    case Field(k, v, rest) => k !in Keys(rest) && Ok(v) && OkFields(rest)
  }

  // ----- the serialiser -----

  function HexDigit(n: int): char
    requires 0 <= n < 16
  {
    "0123456789abcdef"[n]
  }

  function EscapeChar(c: char): (t: string)
    ensures t != ""
  {
    if c == '"' then "\\\""
    else if c == '\\' then "\\\\"
    else if c as int == 8 then "\\b"
    else if c as int == 9 then "\\t"
    else if c as int == 10 then "\\n"
    else if c as int == 12 then "\\f"
    else if c as int == 13 then "\\r"
    else if (c as int) < 32 then "\\u00" + [HexDigit(c as int / 16), HexDigit(c as int % 16)]
    else [c]
  }

  /**
   * The escapes of a JSON string, as section 7 of RFC 8259 lists them: two characters for the quote, the
   * backslash and five controls, a short code for the other controls, and every other character as it is.
   */
  lemma EscapesAsJson(c: char)
    ensures EscapeChar(34 as char) == "\\\"" && EscapeChar(92 as char) == "\\\\"
    ensures EscapeChar(8 as char) == "\\b" && EscapeChar(9 as char) == "\\t" && EscapeChar(10 as char) == "\\n"
    ensures EscapeChar(12 as char) == "\\f" && EscapeChar(13 as char) == "\\r"
    ensures c as int < 32 && c as int !in {8, 9, 10, 12, 13} ==>
              && |EscapeChar(c)| == 6 && EscapeChar(c)[..4] == "\\u00"
              && EscapeChar(c)[4] == (if c as int < 16 then '0' else '1')
              && EscapeChar(c)[5] == "0123456789abcdef"[c as int % 16]
    ensures c as int >= 32 && c as int !in {34, 92} ==> EscapeChar(c) == [c]
  {
    if c as int < 32 && c as int !in {8, 9, 10, 12, 13} {
      assert c as int / 16 == if c as int < 16 then 0 else 1;
    }
  }

  function Escape(s: string): string {
    if s == "" then "" else EscapeChar(s[0]) + Escape(s[1..])
  }

  function Quote(s: string): string {
    "\"" + (Escape(s) + "\"")
  }

  /** A rendered member: its key, and the text of its value. */
  type Part = (string, string)

  function StableStringify(v: Value): string {
    match v
    case Null => "null"
    case Undefined => "null"
    case Bool(b) => if b then "true" else "false"
    case Num(t) => t
    case Str(s) => Quote(s)
    case Date(_) => "{}"                 // an object with no own keys
    case Arr(items) => "[" + (Join(ItemTexts(items)) + "]")
    case Obj(f) => "{" + (Join(PartTexts(Sort(Parts(f)))) + "}")
  }

  function ItemTexts(vs: Values): seq<string> {
    match vs
    case Nil => []
    case Cons(v, rest) => [StableStringify(v)] + ItemTexts(rest)
  }

  function Parts(f: Fields): seq<Part> {
    match f
    case End => []
    case Field(k, v, rest) => [(k, StableStringify(v))] + Parts(rest)
  }

  function PartText(p: Part): string {
    Quote(p.0) + (":" + p.1)
  }

  function PartTexts(ps: seq<Part>): seq<string> {
    if ps == [] then [] else [PartText(ps[0])] + PartTexts(ps[1..])
  }

  function Join(ts: seq<string>): string {
    if ts == [] then "" else if |ts| == 1 then ts[0] else ts[0] + ("," + Join(ts[1..]))
  }

  // ----- sorting by key -----

  predicate Less(a: string, b: string) {
    b != "" && (a == "" || a[0] < b[0] || (a[0] == b[0] && Less(a[1..], b[1..])))
  }

  lemma {:induction false} LessTotal(a: string, b: string)
    ensures Less(a, b) || a == b || Less(b, a)
    ensures !(Less(a, b) && Less(b, a)) && !Less(a, a)
  {
    if a != "" && b != "" {
      LessTotal(a[1..], b[1..]);
      LessTotal(a[1..], a[1..]);
      if a[0] == b[0] && a[1..] == b[1..] { assert a == [a[0]] + a[1..] && b == [b[0]] + b[1..]; }
    } else if a != "" {
      LessTotal(a[1..], a[1..]);
    }
  }

  lemma {:induction false} LessTrans(a: string, b: string, c: string)
    requires Less(a, b) && Less(b, c)
    ensures Less(a, c)
  {
    if a != "" && a[0] == b[0] == c[0] {
      LessTrans(a[1..], b[1..], c[1..]);
    }
  }

  function Insert(p: Part, ps: seq<Part>): seq<Part> {
    if ps == [] then [p]
    else if Less(p.0, ps[0].0) then [p] + ps
    else [ps[0]] + Insert(p, ps[1..])
  }

  function Sort(ps: seq<Part>): seq<Part> {
    if ps == [] then [] else Insert(ps[0], Sort(ps[1..]))
  }

  predicate Sorted(ps: seq<Part>) {
    forall i, j :: 0 <= i < j < |ps| ==> Less(ps[i].0, ps[j].0)
  }

  lemma {:induction false} InsertElements(p: Part, ps: seq<Part>)
    ensures forall x :: x in Insert(p, ps) <==> x == p || x in ps
  {
    if ps != [] && !Less(p.0, ps[0].0) {
      InsertElements(p, ps[1..]);
      assert ps == [ps[0]] + ps[1..];
    }
  }

  lemma {:induction false} InsertSorted(p: Part, ps: seq<Part>)
    requires Sorted(ps) && forall x :: x in ps ==> x.0 != p.0
    ensures Sorted(Insert(p, ps))
  {
    if ps == [] {
    } else if Less(p.0, ps[0].0) {
      forall j | 0 < j < |ps| ensures Less(p.0, ps[j].0) { LessTrans(p.0, ps[0].0, ps[j].0); }
    } else {
      LessTotal(p.0, ps[0].0);
      InsertSorted(p, ps[1..]);
      InsertElements(p, ps[1..]);
      var r := Insert(p, ps[1..]);
      forall j | 0 <= j < |r| ensures Less(ps[0].0, r[j].0) {
        assert r[j] in r;
        if r[j] != p {
          var i :| 0 <= i < |ps[1..]| && ps[1..][i] == r[j];
          assert ps[i + 1] == r[j];
        }
      }
    }
  }

  predicate DistinctKeys(ps: seq<Part>) {
    forall i, j :: 0 <= i < j < |ps| ==> ps[i].0 != ps[j].0
  }

  lemma {:induction false} SortSorts(ps: seq<Part>)
    requires DistinctKeys(ps)
    ensures Sorted(Sort(ps))
    ensures forall x :: x in Sort(ps) <==> x in ps
  {
    if ps != [] {
      SortSorts(ps[1..]);
      InsertElements(ps[0], Sort(ps[1..]));
      assert ps == [ps[0]] + ps[1..];
      forall x | x in ps[1..] ensures x.0 != ps[0].0 {
        var i :| 0 <= i < |ps[1..]| && ps[1..][i] == x;
        assert ps[i + 1] == x;
      }
      InsertSorted(ps[0], Sort(ps[1..]));
    }
  }

  /** A sorted list is determined by its elements. */
  lemma {:induction false} SortedUnique(ps: seq<Part>, qs: seq<Part>)
    requires Sorted(ps) && Sorted(qs) && forall x :: x in ps <==> x in qs
    ensures ps == qs
  {
    BothEmpty(ps, qs);
    if ps != [] {
      HeadsAgree(ps, qs);
      assert ps == [ps[0]] + ps[1..] && qs == [qs[0]] + qs[1..];
      forall x ensures x in ps[1..] <==> x in qs[1..] {
        TailElements(ps, x);
        TailElements(qs, x);
      }
      SortedUnique(ps[1..], qs[1..]);
    }
  }

  lemma BothEmpty(ps: seq<Part>, qs: seq<Part>)
    requires forall x :: x in ps <==> x in qs
    ensures ps == [] <==> qs == []
    ensures ps != [] ==> ps[0] in qs && qs[0] in ps
  {
    if ps != [] { assert ps[0] in qs; }
    if qs != [] { assert qs[0] in ps; }
  }

  lemma TailElements(ps: seq<Part>, x: Part)
    requires Sorted(ps) && ps != []
    ensures x in ps[1..] <==> x in ps && x != ps[0]
  {
    LessTotal(ps[0].0, ps[0].0);
    if x in ps[1..] {
      var i :| 0 <= i < |ps[1..]| && ps[1..][i] == x;
      assert Less(ps[0].0, ps[i + 1].0);
    }
    if x in ps && x != ps[0] {
      var i :| 0 <= i < |ps| && ps[i] == x;
      assert ps[1..][i - 1] == x;
    }
  }

  lemma FirstIsLeast(ps: seq<Part>, x: Part)
    requires Sorted(ps) && x in ps
    ensures x == ps[0] || Less(ps[0].0, x.0)
  {
    var i :| 0 <= i < |ps| && ps[i] == x;
  }

  lemma HeadsAgree(ps: seq<Part>, qs: seq<Part>)
    requires Sorted(ps) && Sorted(qs) && ps != [] && qs != [] && ps[0] in qs && qs[0] in ps
    ensures ps[0] == qs[0]
  {
    FirstIsLeast(ps, qs[0]);
    FirstIsLeast(qs, ps[0]);
    LessTotal(ps[0].0, qs[0].0);
  }

  // ----- equality up to key order -----

  /** Equal values, when the order of keys does not matter at any depth. */
  predicate Same(v: Value, w: Value) {
    match v
    case Arr(items) => w.Arr? && SameItems(items, w.items)
    case Obj(f) => w.Obj? && Keys(f) == Keys(w.fields) && SameFields(f, w.fields)
    case _ => v == w
  }

  predicate SameItems(vs: Values, ws: Values) {
    match vs
    case Nil => ws.Nil?
    case Cons(v, rest) => ws.Cons? && Same(v, ws.head) && SameItems(rest, ws.tail)
  }

  /** Every field of `f` is in `g`, with the same value. */
  predicate SameFields(f: Fields, g: Fields) {
    match f
    case End => true
    case Field(k, v, rest) => k in Keys(g) && Same(v, Get(g, k)) && SameFields(rest, g)
  }

  lemma {:induction false} PartsOf(f: Fields)
    requires OkFields(f)
    ensures DistinctKeys(Parts(f))
    ensures forall p :: p in Parts(f) <==> p.0 in Keys(f) && p.1 == StableStringify(Get(f, p.0))
  {
    if f.Field? {
      PartsOf(f.rest);
      forall i | 0 <= i < |Parts(f.rest)| ensures Parts(f.rest)[i].0 != f.key {
        assert Parts(f.rest)[i] in Parts(f.rest);
      }
    }
  }

  lemma {:induction false} SameGet(f: Fields, g: Fields, k: string)
    requires SameFields(f, g) && k in Keys(f) && OkFields(f)
    ensures k in Keys(g) && Same(Get(f, k), Get(g, k))
  {
    if f.key != k { SameGet(f.rest, g, k); }
  }

  lemma {:induction false} OkGet(f: Fields, k: string)
    requires OkFields(f) && k in Keys(f)
    ensures Ok(Get(f, k))
  {
    if f.key != k { OkGet(f.rest, k); }
  }

  /** Key order does not show in the canonical text. */
  lemma {:induction false} SameStringifiesSame(v: Value, w: Value)
    requires Ok(v) && Ok(w) && Same(v, w)
    ensures StableStringify(v) == StableStringify(w)
    decreases v
  {
    match v
    case Arr(items) => SameItemTexts(items, w.items);
    case Obj(f) =>
      var g := w.fields;
      PartsOf(f);
      PartsOf(g);
      forall k | k in Keys(f) ensures StableStringify(Get(f, k)) == StableStringify(Get(g, k)) {
        SameGet(f, g, k);
        OkGet(f, k);
        OkGet(g, k);
        SameStringifiesSame(Get(f, k), Get(g, k));
      }
      SortSorts(Parts(f));
      SortSorts(Parts(g));
      SortedUnique(Sort(Parts(f)), Sort(Parts(g)));
    case _ =>
  }

  lemma {:induction false} SameItemTexts(vs: Values, ws: Values)
    requires OkItems(vs) && OkItems(ws) && SameItems(vs, ws)
    ensures ItemTexts(vs) == ItemTexts(ws)
    decreases vs
  {
    if vs.Cons? {
      SameStringifiesSame(vs.head, ws.head);
      SameItemTexts(vs.tail, ws.tail);
    }
  }
}
