/**
 * The canonical text determines the value: two plain values with the same text are equal up to
 * key order. Hence exactly which metadata survives a round trip through the database unsigned-for.
 */
module AuditUnique {
  import opened AuditCanon
  import opened Text

  /** What comes back from a JSON column: no undefined, no date objects. */
  predicate Plain(v: Value) {
    match v
    case Undefined => false
    case Date(_) => false
    case Num(t) => NumText(t)
    case Arr(items) => PlainItems(items)
    case Obj(f) => PlainFields(f)
    case _ => true
  }

  predicate PlainItems(vs: Values) {
    match vs
    case Nil => true
    case Cons(v, rest) => Plain(v) && PlainItems(rest)
  }

  predicate PlainFields(f: Fields) {
    match f
    case End => true
    case Field(k, v, rest) => k !in Keys(rest) && Plain(v) && PlainFields(rest)
  }

  lemma {:induction false} PlainIsOk(v: Value)
    requires Plain(v)
    ensures Ok(v)
    decreases v
  {
    match v
    case Arr(items) => PlainItemsOk(items);
    case Obj(f) => PlainFieldsOk(f);
    case _ =>
  }

  lemma {:induction false} PlainItemsOk(vs: Values)
    requires PlainItems(vs)
    ensures OkItems(vs)
    decreases vs
  {
    if vs.Cons? { PlainIsOk(vs.head); PlainItemsOk(vs.tail); }
  }

  lemma {:induction false} PlainFieldsOk(f: Fields)
    requires PlainFields(f)
    ensures OkFields(f)
    decreases f
  {
    if f.Field? { PlainIsOk(f.value); PlainFieldsOk(f.rest); }
  }

  lemma {:induction false} PlainGet(f: Fields, k: string)
    requires PlainFields(f) && k in Keys(f)
    ensures Plain(Get(f, k))
  {
    if f.key != k { PlainGet(f.rest, k); }
  }

  // ----- texts that end where they must -----

  /** What may follow a value inside an array or object, or nothing. */
  predicate Delim(x: string) {
    x == "" || x[0] == ',' || x[0] == ']' || x[0] == '}'
  }

  lemma EscapeCharPrefix(c: char, d: char, x: string, y: string)
    requires EscapeChar(c) + x == EscapeChar(d) + y
    ensures c == d && x == y
  {
    var t := EscapeChar(c) + x;
    assert t[0] == EscapeChar(c)[0] && t[0] == EscapeChar(d)[0];
    if |EscapeChar(c)| > 1 {
      assert t[1] == EscapeChar(c)[1];
      if |EscapeChar(d)| > 1 { assert t[1] == EscapeChar(d)[1]; }
    }
    if |EscapeChar(c)| == 6 && |EscapeChar(d)| == 6 {
      assert t[4] == EscapeChar(c)[4] && t[4] == EscapeChar(d)[4];
      assert t[5] == EscapeChar(c)[5] && t[5] == EscapeChar(d)[5];
      HexInjective(c as int / 16, d as int / 16);
      HexInjective(c as int % 16, d as int % 16);
    }
    assert c == d;
    assert x == t[|EscapeChar(c)|..] && y == t[|EscapeChar(d)|..];
  }

  lemma HexInjective(m: int, n: int)
    requires 0 <= m < 16 && 0 <= n < 16 && HexDigit(m) == HexDigit(n)
    ensures m == n
  {
  }

  lemma Assoc(a: string, b: string, c: string)
    ensures (a + b) + c == a + (b + c)
    ensures a != "" ==> (a + b)[0] == a[0]
  {
  }

  function EscapedThen(s: string, x: string): string {
    Escape(s) + ("\"" + x)
  }

  lemma EscapedShape(s: string, x: string)
    ensures s == "" ==> EscapedThen(s, x) == "\"" + x
    ensures s != "" ==> EscapedThen(s, x) == EscapeChar(s[0]) + EscapedThen(s[1..], x)
    ensures EscapedThen(s, x) != "" && (EscapedThen(s, x)[0] == '"' <==> s == "")
  {
    if s == "" {
      assert EscapedThen(s, x) == "\"" + x;
    } else {
      assert EscapedThen(s, x) == EscapeChar(s[0]) + EscapedThen(s[1..], x);
      assert EscapedThen(s, x)[0] == EscapeChar(s[0])[0];
    }
  }

  lemma {:induction false} EscapePrefix(s: string, t: string, x: string, y: string)
    requires EscapedThen(s, x) == EscapedThen(t, y)
    ensures s == t && x == y
  {
    EscapedShape(s, x);
    EscapedShape(t, y);
    if s == "" {
      Cut("\"", x, "\"", y);
    } else {
      EscapeCharPrefix(s[0], t[0], EscapedThen(s[1..], x), EscapedThen(t[1..], y));
      EscapePrefix(s[1..], t[1..], x, y);
      assert s == [s[0]] + s[1..] && t == [t[0]] + t[1..];
    }
  }

  lemma QuotePrefix(s: string, t: string, x: string, y: string)
    requires Quote(s) + x == Quote(t) + y
    ensures s == t && x == y
  {
    assert Quote(s) + x == "\"" + EscapedThen(s, x) && Quote(t) + y == "\"" + EscapedThen(t, y);
    Cut("\"", EscapedThen(s, x), "\"", EscapedThen(t, y));
    EscapePrefix(s, t, x, y);
  }

  lemma NumPrefix(t: string, u: string, x: string, y: string)
    requires NumText(t) && NumText(u) && Delim(x) && Delim(y) && t + x == u + y
    ensures t == u && x == y
  {
    var a := t + x;
    assert forall i :: 0 <= i < |t| ==> a[i] == t[i];
    assert forall i :: 0 <= i < |u| ==> (u + y)[i] == u[i];
    assert |t| < |a| ==> a[|t|] == x[0];
    assert |u| < |a| ==> (u + y)[|u|] == y[0];
    assert |t| == |u|;
    assert t == a[..|t|] && u == a[..|u|] && x == a[|t|..] && y == a[|u|..];
  }

  /** The first character tells which kind of value follows. */
  lemma FirstChar(v: Value)
    requires Plain(v)
    ensures var t := StableStringify(v);
            && t != ""
            && (t[0] == 'n' <==> v.Null?) && (t[0] == 't' <==> v == Bool(true)) && (t[0] == 'f' <==> v == Bool(false))
            && (t[0] == '"' <==> v.Str?) && (t[0] == '[' <==> v.Arr?) && (t[0] == '{' <==> v.Obj?)
            && t[0] != ',' && t[0] != ']' && t[0] != '}'
  {
  }

  /** A part of `f`: one of its keys with the text of its value. */
  predicate PartOf(p: Part, f: Fields) {
    p.0 in Keys(f) && p.1 == StableStringify(Get(f, p.0))
  }

  /** Texts followed by delimiters can be cut back apart, and their values agree. */
  lemma {:induction false} ValuePrefix(v: Value, w: Value, x: string, y: string)
    requires Plain(v) && Plain(w) && Delim(x) && Delim(y)
    requires StableStringify(v) + x == StableStringify(w) + y
    ensures Same(v, w) && x == y
    decreases v, 0
  {
    SameKind(v, w, x, y);
    match v
    case Num(t) => NumPrefix(t, w.text, x, y);
    case Str(s) => QuotePrefix(s, w.s, x, y);
    case Arr(items) => ArrPrefix(items, w.items, x, y);
    case Obj(f) => ObjPrefix(f, w.fields, x, y);
    case _ => Cut(StableStringify(v), x, StableStringify(w), y);
  }

  lemma SameKind(v: Value, w: Value, x: string, y: string)
    requires Plain(v) && Plain(w)
    requires StableStringify(v) + x == StableStringify(w) + y
    ensures match v
            case Num(_) => w.Num?
            case Str(_) => w.Str?
            case Arr(_) => w.Arr?
            case Obj(_) => w.Obj?
            case _ => v == w
  {
    FirstChar(v);
    FirstChar(w);
    assert (StableStringify(v) + x)[0] == StableStringify(v)[0];
    assert (StableStringify(w) + y)[0] == StableStringify(w)[0];
  }

  lemma Bracketed(left: string, body: string, right: string, x: string)
    ensures (left + (body + right)) + x == left + (body + (right + x))
  {
    Assoc(left, body + right, x);
    Assoc(body, right, x);
  }

  lemma {:induction false} ArrPrefix(vs: Values, ws: Values, x: string, y: string)
    requires PlainItems(vs) && PlainItems(ws)
    requires StableStringify(Arr(vs)) + x == StableStringify(Arr(ws)) + y
    ensures SameItems(vs, ws) && x == y
    decreases vs, 1
  {
    Bracketed("[", Join(ItemTexts(vs)), "]", x);
    Bracketed("[", Join(ItemTexts(ws)), "]", y);
    Cut("[", ItemsThen(vs, x), "[", ItemsThen(ws, y));
    ItemsPrefix(vs, ws, x, y);
  }

  lemma {:induction false} ObjPrefix(f: Fields, g: Fields, x: string, y: string)
    requires PlainFields(f) && PlainFields(g)
    requires StableStringify(Obj(f)) + x == StableStringify(Obj(g)) + y
    ensures Keys(f) == Keys(g) && SameFields(f, g) && x == y
    decreases f, 1 + |Sort(Parts(f))|
  {
    var ps, qs := Sort(Parts(f)), Sort(Parts(g));
    Bracketed("{", Join(PartTexts(ps)), "}", x);
    Bracketed("{", Join(PartTexts(qs)), "}", y);
    Cut("{", PartsThen(ps, x), "{", PartsThen(qs, y));
    SortedPartsOf(f);
    SortedPartsOf(g);
    PartsPrefix(ps, qs, f, g, x, y);
    forall k | k in Keys(f) ensures k in Keys(g) && Same(Get(f, k), Get(g, k)) {
      var i :| 0 <= i < |ps| && ps[i].0 == k;
      assert PartOf(ps[i], f) && PartOf(qs[i], g);
    }
    forall k | k in Keys(g) ensures k in Keys(f) {
      var i :| 0 <= i < |qs| && qs[i].0 == k;
      assert PartOf(ps[i], f);
    }
    SameFieldsFromGets(f, f, g);
  }

  lemma SortedPartsOf(f: Fields)
    requires PlainFields(f)
    ensures forall i :: 0 <= i < |Sort(Parts(f))| ==> PartOf(Sort(Parts(f))[i], f)
    ensures forall k :: k in Keys(f) ==> exists i :: 0 <= i < |Sort(Parts(f))| && Sort(Parts(f))[i].0 == k
  {
    PlainFieldsOk(f);
    PartsOf(f);
    SortSorts(Parts(f));
    var ps := Sort(Parts(f));
    forall i | 0 <= i < |ps| ensures PartOf(ps[i], f) { assert ps[i] in ps; }
    forall k | k in Keys(f) ensures exists i :: 0 <= i < |ps| && ps[i].0 == k {
      assert (k, StableStringify(Get(f, k))) in ps;
    }
  }

  lemma {:induction false} SameFieldsFromGets(part: Fields, f: Fields, g: Fields)
    requires PlainFields(part)
    requires forall k :: k in Keys(part) ==> k in Keys(f) && Get(f, k) == Get(part, k)
    requires forall k :: k in Keys(f) ==> k in Keys(g) && Same(Get(f, k), Get(g, k))
    ensures SameFields(part, g)
  {
    if part.Field? {
      assert part.key in Keys(part) && Get(part, part.key) == part.value;
      forall k | k in Keys(part.rest) ensures k in Keys(f) && Get(f, k) == Get(part.rest, k) {
        assert k in Keys(part) && k != part.key;
      }
      SameFieldsFromGets(part.rest, f, g);
    }
  }

  function JoinTail(ts: seq<string>): string {
    if ts == [] then "" else "," + Join(ts)
  }

  lemma JoinCons(t: string, ts: seq<string>)
    ensures Join([t] + ts) == t + JoinTail(ts)
  {
    assert ([t] + ts)[1..] == ts;
    if ts == [] { assert t + "" == t; }
  }

  /** Items, the closing bracket, and what follows. */
  function ItemsThen(vs: Values, x: string): string {
    Join(ItemTexts(vs)) + ("]" + x)
  }

  function ItemsRest(vs: Values, x: string): string {
    JoinTail(ItemTexts(vs)) + ("]" + x)
  }

  lemma ItemsRestShape(vs: Values, x: string)
    ensures ItemsRest(vs, x) == if vs.Nil? then "]" + x else "," + ItemsThen(vs, x)
    ensures ItemsRest(vs, x) != "" && Delim(ItemsRest(vs, x)) && (ItemsRest(vs, x)[0] == ']' <==> vs.Nil?)
  {
    if vs.Nil? {
      assert ItemsRest(vs, x) == "]" + x;
    } else {
      assert ItemTexts(vs) != [];
      assert ItemsRest(vs, x) == "," + ItemsThen(vs, x);
    }
  }

  lemma ItemsShape(vs: Values, x: string)
    requires PlainItems(vs)
    ensures ItemsThen(vs, x) == if vs.Nil? then "]" + x else StableStringify(vs.head) + ItemsRest(vs.tail, x)
    ensures ItemsThen(vs, x) != "" && (ItemsThen(vs, x)[0] == ']' <==> vs.Nil?)
  {
    if vs.Nil? {
      assert ItemsThen(vs, x) == "]" + x;
    } else {
      var t, ts := StableStringify(vs.head), ItemTexts(vs.tail);
      JoinCons(t, ts);
      FirstChar(vs.head);
      Assoc(t, JoinTail(ts), "]" + x);
      Assoc(t, ItemsRest(vs.tail, x), "");
    }
  }

  lemma {:induction false} ItemsPrefix(vs: Values, ws: Values, x: string, y: string)
    requires PlainItems(vs) && PlainItems(ws)
    requires ItemsThen(vs, x) == ItemsThen(ws, y)
    ensures SameItems(vs, ws) && x == y
    decreases vs, 0
  {
    ItemsShape(vs, x);
    ItemsShape(ws, y);
    if vs.Nil? {
      Cut("]", x, "]", y);
    } else {
      ItemsRestShape(vs.tail, x);
      ItemsRestShape(ws.tail, y);
      ValuePrefix(vs.head, ws.head, ItemsRest(vs.tail, x), ItemsRest(ws.tail, y));
      if vs.tail.Nil? {
        Cut("]", x, "]", y);
      } else {
        Cut(",", ItemsThen(vs.tail, x), ",", ItemsThen(ws.tail, y));
        ItemsPrefix(vs.tail, ws.tail, x, y);
      }
    }
  }

  function PartsThen(ps: seq<Part>, x: string): string {
    Join(PartTexts(ps)) + ("}" + x)
  }

  function PartsRest(ps: seq<Part>, x: string): string {
    JoinTail(PartTexts(ps)) + ("}" + x)
  }

  lemma PartsRestShape(ps: seq<Part>, x: string)
    ensures PartsRest(ps, x) == if ps == [] then "}" + x else "," + PartsThen(ps, x)
    ensures PartsRest(ps, x) != "" && Delim(PartsRest(ps, x)) && (PartsRest(ps, x)[0] == '}' <==> ps == [])
  {
    if ps == [] {
      assert PartsRest(ps, x) == "}" + x;
    } else {
      assert PartTexts(ps) != [];
      assert PartsRest(ps, x) == "," + PartsThen(ps, x);
    }
  }

  lemma PartsShape(ps: seq<Part>, x: string)
    ensures ps == [] ==> PartsThen(ps, x) == "}" + x
    ensures ps != [] ==> PartsThen(ps, x) == Quote(ps[0].0) + (":" + (ps[0].1 + PartsRest(ps[1..], x)))
    ensures PartsThen(ps, x) != "" && (PartsThen(ps, x)[0] == '}' <==> ps == [])
  {
    if ps == [] {
      assert PartsThen(ps, x) == "}" + x;
    } else {
      var t, ts := PartText(ps[0]), PartTexts(ps[1..]);
      var rest := PartsRest(ps[1..], x);
      JoinCons(t, ts);
      Assoc(t, JoinTail(ts), "}" + x);
      Assoc(Quote(ps[0].0), ":" + ps[0].1, rest);
      Assoc(":", ps[0].1, rest);
      Assoc(Quote(ps[0].0), ":" + (ps[0].1 + rest), "");
    }
  }

  /** One member: the keys agree, and what follows the colon. */
  lemma MemberPrefix(p: Part, q: Part, xs: string, ys: string)
    requires Quote(p.0) + (":" + (p.1 + xs)) == Quote(q.0) + (":" + (q.1 + ys))
    ensures p.0 == q.0 && p.1 + xs == q.1 + ys
  {
    QuotePrefix(p.0, q.0, ":" + (p.1 + xs), ":" + (q.1 + ys));
    Cut(":", p.1 + xs, ":", q.1 + ys);
  }

  predicate MemberAgrees(p: Part, q: Part, f: Fields, g: Fields) {
    PartOf(p, f) && PartOf(q, g) && p.0 == q.0 && Same(Get(f, p.0), Get(g, q.0))
  }

  lemma {:induction false} PartsPrefix(ps: seq<Part>, qs: seq<Part>, f: Fields, g: Fields, x: string, y: string)
    requires PlainFields(f) && PlainFields(g)
    requires forall i :: 0 <= i < |ps| ==> PartOf(ps[i], f)
    requires forall i :: 0 <= i < |qs| ==> PartOf(qs[i], g)
    requires PartsThen(ps, x) == PartsThen(qs, y)
    ensures |ps| == |qs| && x == y
    ensures forall i :: 0 <= i < |ps| ==> MemberAgrees(ps[i], qs[i], f, g)
    decreases f, |ps|
  {
    PartsShape(ps, x);
    PartsShape(qs, y);
    if ps == [] {
      Cut("}", x, "}", y);
    } else {
      var p, q := ps[0], qs[0];
      var xs, ys := PartsRest(ps[1..], x), PartsRest(qs[1..], y);
      MemberPrefix(p, q, xs, ys);
      PartsRestShape(ps[1..], x);
      PartsRestShape(qs[1..], y);
      PlainGet(f, p.0);
      PlainGet(g, q.0);
      ValuePrefix(Get(f, p.0), Get(g, q.0), xs, ys);
      if ps[1..] == [] {
        Cut("}", x, "}", y);
      } else {
        Cut(",", PartsThen(ps[1..], x), ",", PartsThen(qs[1..], y));
        PartsPrefix(ps[1..], qs[1..], f, g, x, y);
      }
      forall i | 0 <= i < |ps| ensures MemberAgrees(ps[i], qs[i], f, g) {
        if i > 0 { assert ps[i] == ps[1..][i - 1] && qs[i] == qs[1..][i - 1]; }
      }
    }
  }

  /** For plain values the canonical texts are equal exactly when the values are, up to key order. */
  lemma TextDeterminesValue(v: Value, w: Value)
    requires Plain(v) && Plain(w)
    ensures StableStringify(v) == StableStringify(w) <==> Same(v, w)
  {
    PlainIsOk(v);
    PlainIsOk(w);
    if Same(v, w) { SameStringifiesSame(v, w); }
    if StableStringify(v) == StableStringify(w) {
      assert StableStringify(v) + "" == StableStringify(w) + "";
      ValuePrefix(v, w, "", "");
    }
  }

  // ----- what the database gives back -----

  /** A JSON round trip: undefined members vanish, undefined items are null, dates become text. */
  function Stored(v: Value): Value {
    match v
    case Undefined => Null
    case Date(iso) => Str(iso)
    case Arr(items) => Arr(StoredItems(items))
    case Obj(f) => Obj(StoredFields(f))
    case _ => v
  }

  function StoredItems(vs: Values): Values {
    match vs
    case Nil => Nil
    case Cons(v, rest) => Cons(Stored(v), StoredItems(rest))
  }

  function StoredFields(f: Fields): Fields {
    match f
    case End => End
    case Field(k, v, rest) => if v.Undefined? then StoredFields(rest) else Field(k, Stored(v), StoredFields(rest))
  }

  /** No undefined members and no date objects, at any depth. */
  predicate Clean(v: Value) {
    match v
    case Date(_) => false
    case Arr(items) => CleanItems(items)
    case Obj(f) => CleanFields(f)
    case _ => true
  }

  predicate CleanItems(vs: Values) {
    match vs
    case Nil => true
    case Cons(v, rest) => Clean(v) && CleanItems(rest)
  }

  predicate CleanFields(f: Fields) {
    match f
    case End => true
    case Field(_, v, rest) => !v.Undefined? && Clean(v) && CleanFields(rest)
  }

  /** A plain value with the same text: what the serialiser takes `v` for. */
  function Seen(v: Value): Value {
    match v
    case Undefined => Null
    case Date(_) => Obj(End)
    case Arr(items) => Arr(SeenItems(items))
    case Obj(f) => Obj(SeenFields(f))
    case _ => v
  }

  function SeenItems(vs: Values): Values {
    match vs
    case Nil => Nil
    case Cons(v, rest) => Cons(Seen(v), SeenItems(rest))
  }

  function SeenFields(f: Fields): Fields {
    match f
    case End => End
    case Field(k, v, rest) => Field(k, Seen(v), SeenFields(rest))
  }

  lemma {:induction false} SeenHasSameText(v: Value)
    requires Ok(v)
    ensures Plain(Seen(v)) && StableStringify(Seen(v)) == StableStringify(v)
    decreases v
  {
    match v
    case Arr(items) => SeenItemsSame(items);
    case Obj(f) => SeenFieldsSame(f);
    case Date(_) => assert StableStringify(Obj(End)) == "{" + ("" + "}");
    case _ =>
  }

  lemma {:induction false} SeenItemsSame(vs: Values)
    requires OkItems(vs)
    ensures PlainItems(SeenItems(vs)) && ItemTexts(SeenItems(vs)) == ItemTexts(vs)
    decreases vs
  {
    if vs.Cons? { SeenHasSameText(vs.head); SeenItemsSame(vs.tail); }
  }

  lemma {:induction false} SeenFieldsSame(f: Fields)
    requires OkFields(f)
    ensures Keys(SeenFields(f)) == Keys(f)
    ensures PlainFields(SeenFields(f)) && Parts(SeenFields(f)) == Parts(f)
    decreases f
  {
    if f.Field? { SeenHasSameText(f.value); SeenFieldsSame(f.rest); }
  }

  lemma {:induction false} StoredIsPlain(v: Value)
    requires Ok(v)
    ensures Plain(Stored(v))
    decreases v
  {
    match v
    case Arr(items) => StoredItemsPlain(items);
    case Obj(f) => StoredFieldsPlain(f);
    case _ =>
  }

  lemma {:induction false} StoredItemsPlain(vs: Values)
    requires OkItems(vs)
    ensures PlainItems(StoredItems(vs))
    decreases vs
  {
    if vs.Cons? { StoredIsPlain(vs.head); StoredItemsPlain(vs.tail); }
  }

  lemma {:induction false} StoredFieldsPlain(f: Fields)
    requires OkFields(f)
    ensures PlainFields(StoredFields(f)) && Keys(StoredFields(f)) <= Keys(f)
    decreases f
  {
    if f.Field? { StoredIsPlain(f.value); StoredFieldsPlain(f.rest); }
  }

  lemma {:induction false} StoredSeenIffClean(v: Value)
    requires Ok(v)
    ensures Same(Stored(v), Seen(v)) <==> Clean(v)
    decreases v
  {
    match v
    case Arr(items) => ItemsStoredSeenIffClean(items);
    case Obj(f) =>
      StoredFieldsPlain(f);
      SeenFieldsSame(f);
      FieldsStoredSeenIffClean(f, f);
    case _ =>
  }

  lemma {:induction false} ItemsStoredSeenIffClean(vs: Values)
    requires OkItems(vs)
    ensures SameItems(StoredItems(vs), SeenItems(vs)) <==> CleanItems(vs)
    decreases vs
  {
    if vs.Cons? { StoredSeenIffClean(vs.head); ItemsStoredSeenIffClean(vs.tail); }
  }

  lemma {:induction false} SeenGet(f: Fields, k: string)
    requires OkFields(f) && k in Keys(f)
    ensures k in Keys(SeenFields(f)) && Get(SeenFields(f), k) == Seen(Get(f, k))
  {
    SeenFieldsSame(f);
    if f.key != k { SeenGet(f.rest, k); }
  }

  /** Field by field, over a tail `part` of the object's fields `f`. */
  lemma {:induction false} FieldsStoredSeenIffClean(part: Fields, f: Fields)
    requires OkFields(part) && OkFields(f)
    requires forall k :: k in Keys(part) ==> k in Keys(f) && Get(f, k) == Get(part, k)
    ensures Keys(StoredFields(part)) <= Keys(part)
    ensures Keys(StoredFields(part)) == Keys(part) && SameFields(StoredFields(part), SeenFields(f))
            <==> CleanFields(part)
    decreases part
  {
    StoredFieldsPlain(part);
    if part.Field? {
      assert part.key in Keys(part) && Get(part, part.key) == part.value;
      SeenGet(f, part.key);
      forall k | k in Keys(part.rest) ensures k in Keys(f) && Get(f, k) == Get(part.rest, k) {
        assert k in Keys(part) && k != part.key;
      }
      StoredSeenIffClean(part.value);
      FieldsStoredSeenIffClean(part.rest, f);
      if part.value.Undefined? {
        assert part.key !in Keys(StoredFields(part));
      } else {
        assert Keys(StoredFields(part)) == Keys(part) <==> Keys(StoredFields(part.rest)) == Keys(part.rest) by {
          assert part.key !in Keys(StoredFields(part.rest)) && part.key !in Keys(part.rest);
          assert Keys(part.rest) == Keys(part) - {part.key};
          assert Keys(StoredFields(part.rest)) == Keys(StoredFields(part)) - {part.key};
        }
      }
    }
  }

  /**
   * Metadata written and read back, its keys in whatever order the database keeps, has its signed
   * text exactly when it held no undefined member and no date object.
   */
  lemma RoundTripKeepsTextIff(v: Value, back: Value)
    requires Ok(v) && Plain(back) && Same(Stored(v), back)
    ensures StableStringify(back) == StableStringify(v) <==> Clean(v)
  {
    StoredIsPlain(v);
    SeenHasSameText(v);
    TextDeterminesValue(Stored(v), back);
    TextDeterminesValue(Stored(v), Seen(v));
    StoredSeenIffClean(v);
  }
}
