/** Multi-kind contexts (sdk/go/flageval/context.go). */
module Contexts {
  import opened Wrappers
  import opened Types

  datatype Context = Context(kinds: map<string, map<string, Value>>) {
    function Attr(kind: string, name: string): Option<Value> {
      if kind in kinds && name in kinds[kind] then Some(kinds[kind][name]) else None
    }

    /** The context's key for a kind, when it is there and is a string. */
    function Key(kind: string): Option<string> {
      match Attr(kind, "key")
      case Some(Text(s)) => Some(s)
      case _ => None
    }
  }

  /** The context has the kind, the kind has the attribute, and this is its value. */
  ghost predicate Carries(c: Context, kind: string, name: string, v: Value) {
    kind in c.kinds && name in c.kinds[kind] && c.kinds[kind][name] == v
  }

  lemma AttrIff(c: Context, kind: string, name: string)
    ensures forall v :: c.Attr(kind, name) == Some(v) <==> Carries(c, kind, name, v)
    ensures c.Attr(kind, name) == None <==> forall v :: !Carries(c, kind, name, v)
  {
    if kind in c.kinds && name in c.kinds[kind] {
      assert Carries(c, kind, name, c.kinds[kind][name]);
    }
  }

  /** The key that targets and segments list is the text in the attribute "key". */
  lemma KeyIff(c: Context, kind: string)
    ensures forall s :: c.Key(kind) == Some(s) <==> Carries(c, kind, "key", Text(s))
  {
    AttrIff(c, kind, "key");
  }

  function KindOf(raw: map<string, Value>): string {
    if "kind" in raw && raw["kind"].Text? then raw["kind"].s else ""
  }

  /** The kinds a raw context stands for: every object member of the multi-kind form; otherwise the
      members themselves, under the named kind or "user". */
  ghost function Parsed(raw: map<string, Value>): map<string, map<string, Value>> {
    if KindOf(raw) == "multi" then
      map k | k in raw && k != "kind" && raw[k].Object? :: raw[k].fields
    else
      map[(if KindOf(raw) == "" then "user" else KindOf(raw)) := raw - {"kind"}]
  }

  method ParseContext(raw: map<string, Value>) returns (c: Context)
    ensures c.kinds == Parsed(raw)
  {
    var kind := KindOf(raw);
    var kinds: map<string, map<string, Value>> := map[];
    var todo := raw.Keys;
    if kind == "multi" {
      while todo != {}
        invariant todo <= raw.Keys
        invariant kinds == map k | k in raw && k !in todo && k != "kind" && raw[k].Object? :: raw[k].fields
        decreases todo
      {
        var k :| k in todo;
        if k != "kind" && raw[k].Object? {
          kinds := kinds[k := raw[k].fields];
        }
        todo := todo - {k};
      }
    } else {
      if kind == "" {
        kind := "user";
      }
      var attrs: map<string, Value> := map[];
      while todo != {}
        invariant todo <= raw.Keys
        invariant attrs == map k | k in raw && k !in todo && k != "kind" :: raw[k]
        decreases todo
      {
        var k :| k in todo;
        if k != "kind" {
          attrs := attrs[k := raw[k]];
        }
        todo := todo - {k};
      }
      assert attrs == raw - {"kind"};
      kinds := kinds[kind := attrs];
    }
    c := Context(kinds);
  }

  /** The attributes of a parsed context, in both forms: of every object member but "kind" if that says "multi",
      and otherwise all members but "kind" for the one kind that it names, or for "user". */
  lemma ParsedAttributes(raw: map<string, Value>, kind: string, name: string, v: Value)
    ensures Carries(Context(Parsed(raw)), kind, name, v) <==>
            if "kind" in raw && raw["kind"] == Text("multi") then
              && kind != "kind" && kind in raw && raw[kind].Object?
              && name in raw[kind].fields && raw[kind].fields[name] == v
            else
              && kind == (if "kind" in raw && raw["kind"].Text? && raw["kind"].s != "" then raw["kind"].s else "user")
              && name != "kind" && name in raw && raw[name] == v
  {
  }
}
