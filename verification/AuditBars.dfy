/**
 * Where a bar can stand in a canonical text: inside a string only. So no canonical text
 * ends with a bar and another canonical text, which is what keeps signed fields apart.
 */
module AuditBars {
  import opened AuditCanon
  import opened AuditUnique

  /** A reader of canonical text: outside strings, inside one, after a backslash in one, or astray. */
  datatype Mode = Out | In | Escaped | Astray

  function Next(m: Mode, c: char): Mode {
    match m
    case Out => if c == '"' then In else if c == '\\' || c == '|' then Astray else Out
    case In => if c == '"' then Out else if c == '\\' then Escaped else In
    case Escaped => In
    case Astray => Astray
  }

  function Scan(t: string, m: Mode): Mode {
    if t == "" then m else Scan(t[1..], Next(m, t[0]))
  }

  lemma {:induction false} ScanConcat(a: string, b: string, m: Mode)
    ensures Scan(a + b, m) == Scan(b, Scan(a, m))
  {
    if a == "" {
      assert a + b == b;
    } else {
      assert (a + b)[0] == a[0] && (a + b)[1..] == a[1..] + b;
      ScanConcat(a[1..], b, Next(m, a[0]));
    }
  }

  lemma {:induction false} AstrayForever(t: string)
    ensures Scan(t, Astray) == Astray
  {
    if t != "" { AstrayForever(t[1..]); }
  }

  /** Started on the two sides of a quote, two readers that are never astray end on opposite sides. */
  lemma {:induction false} Opposite(t: string)
    requires Scan(t, Out) != Astray && Scan(t, In) != Astray
    ensures Scan(t, Out) == Out <==> Scan(t, In) == In
    ensures Scan(t, Out) == In <==> Scan(t, In) == Out
  {
    if t != "" {
      AstrayForever(t[1..]);
      Opposite(t[1..]);
    }
  }

  // ----- canonical texts start and end outside strings -----

  lemma ScanEscapeChar(c: char)
    ensures Scan(EscapeChar(c), In) == In
  {
    var t := EscapeChar(c);
    assert Scan(t, In) == Scan(t[1..], Next(In, t[0]));
    if |t| > 1 {
      assert Scan(t[1..], Escaped) == Scan(t[1..][1..], In);
      if |t| == 6 {
        assert t[1..][1..] == t[2..];
        Plainly(t[2..]);
      }
    }
  }

  /** Characters without meaning inside a string. */
  lemma {:induction false} Plainly(t: string)
    requires forall i :: 0 <= i < |t| ==> t[i] != '"' && t[i] != '\\'
    ensures Scan(t, In) == In
  {
    if t != "" { Plainly(t[1..]); }
  }

  lemma {:induction false} ScanEscape(s: string)
    ensures Scan(Escape(s), In) == In
  {
    if s != "" {
      ScanEscapeChar(s[0]);
      ScanEscape(s[1..]);
      ScanConcat(EscapeChar(s[0]), Escape(s[1..]), In);
    }
  }

  lemma ScanQuote(s: string)
    ensures Scan(Quote(s), Out) == Out
  {
    ScanConcat("\"", Escape(s) + "\"", Out);
    ScanEscape(s);
    ScanConcat(Escape(s), "\"", In);
  }

  lemma {:induction false} ScanNum(t: string)
    requires forall i :: 0 <= i < |t| ==> '0' <= t[i] <= '9' || t[i] in "-+.e"
    ensures Scan(t, Out) == Out
  {
    if t != "" { ScanNum(t[1..]); }
  }

  lemma {:induction false} ScanJoin(ts: seq<string>)
    requires forall i :: 0 <= i < |ts| ==> Scan(ts[i], Out) == Out
    ensures Scan(Join(ts), Out) == Out
  {
    if |ts| > 1 {
      ScanJoin(ts[1..]);
      ScanConcat(",", Join(ts[1..]), Out);
      ScanConcat(ts[0], "," + Join(ts[1..]), Out);
    }
  }

  lemma ScanBracketed(left: string, body: string, right: string)
    requires Scan(left, Out) == Scan(body, Out) == Scan(right, Out) == Out
    ensures Scan(left + (body + right), Out) == Out
  {
    ScanConcat(left, body + right, Out);
    ScanConcat(body, right, Out);
  }

  lemma {:induction false} ScanText(v: Value)
    requires Plain(v)
    ensures Scan(StableStringify(v), Out) == Out
    decreases v, 0
  {
    match v
    case Null => ScanWord("null");
    case Bool(b) => ScanWord(StableStringify(v));
    case Num(t) => ScanNum(t);
    case Str(s) => ScanQuote(s);
    case Arr(items) =>
      ScanItems(items);
      ScanJoin(ItemTexts(items));
      ScanBracketed("[", Join(ItemTexts(items)), "]");
    case Obj(f) =>
      var ps := Sort(Parts(f));
      SortedPartsOf(f);
      ScanParts(ps, f);
      ScanJoin(PartTexts(ps));
      ScanBracketed("{", Join(PartTexts(ps)), "}");
  }

  lemma {:induction false} ScanWord(t: string)
    requires forall i :: 0 <= i < |t| ==> 'a' <= t[i] <= 'z'
    ensures Scan(t, Out) == Out
  {
    if t != "" { ScanWord(t[1..]); }
  }

  lemma {:induction false} ScanItems(vs: Values)
    requires PlainItems(vs)
    ensures forall i :: 0 <= i < |ItemTexts(vs)| ==> Scan(ItemTexts(vs)[i], Out) == Out
    decreases vs, 1
  {
    if vs.Cons? {
      ScanText(vs.head);
      ScanItems(vs.tail);
    }
  }

  lemma {:induction false} ScanParts(ps: seq<Part>, f: Fields)
    requires PlainFields(f) && forall i :: 0 <= i < |ps| ==> PartOf(ps[i], f)
    ensures |PartTexts(ps)| == |ps| && forall i :: 0 <= i < |ps| ==> Scan(PartTexts(ps)[i], Out) == Out
    decreases f, |ps|
  {
    if ps != [] {
      var p := ps[0];
      PlainGet(f, p.0);
      ScanText(Get(f, p.0));
      ScanQuote(p.0);
      ScanConcat(Quote(p.0), ":" + p.1, Out);
      ScanConcat(":", p.1, Out);
      ScanParts(ps[1..], f);
    }
  }

  /** `t` ends with a bar and then `u`. */
  predicate EndsAfterBar(t: string, u: string) {
    |u| < |t| && t[|t| - |u| - 1] == '|' && t[|t| - |u|..] == u
  }

  /** A canonical text never ends with a bar and another canonical text. */
  lemma NoTextEndsAfterBar(v: Value, w: Value)
    requires Plain(v) && Plain(w)
    ensures !EndsAfterBar(StableStringify(v), StableStringify(w))
  {
    var t, u := StableStringify(v), StableStringify(w);
    if EndsAfterBar(t, u) {
      var k := |t| - |u| - 1;
      assert t == (t[..k] + "|") + u;
      ScanText(v);
      ScanText(w);
      ScanConcat(t[..k] + "|", u, Out);
      ScanConcat(t[..k], "|", Out);
      assert Scan("|", Scan(t[..k], Out)) == Next(Scan(t[..k], Out), '|');
      AstrayForever(u);
      Opposite(u);
      assert false;
    }
  }
}
