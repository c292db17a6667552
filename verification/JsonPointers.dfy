/** schemetransfer: JSON Pointers (RFC 6901) into decoded documents, read and replaced as copyPointer does. */
module JsonPointers {
  import opened Basics
  import opened Decimals
  import opened Strings

  /** A decoded document. Numbers keep their exact token. */
  datatype Json =
    | Null
    | Bool(b: bool)
    | Number(token: string)
    | Text(s: string)
    | Array(items: seq<Json>)
    | Object(fields: map<string, Json>)

  // ---- escaping, section 4 of RFC 6901 ----

  function Escape(key: string): string { ReplaceChar(ReplaceChar(key, '~', "~0"), '/', "~1") }

  function Unescape(part: string): string { ReplacePair(ReplacePair(part, '~', '1', "/"), '~', '0', "~") }

  function Pointer(parent: string, key: string): string { parent + "/" + Escape(key) }

  lemma Regroup(a: string, b: string, c: string)
    ensures a + (b + c) == a + b + c
  {}

  lemma {:induction false} ReplaceCharConcat(a: string, b: string, c: char, with: string)
    ensures ReplaceChar(a + b, c, with) == ReplaceChar(a, c, with) + ReplaceChar(b, c, with)
  {
    if a == "" {
      assert a + b == b;
    } else {
      var tail, head := a[1..], if a[0] == c then with else [a[0]];
      assert (a + b)[1..] == tail + b;
      ReplaceCharConcat(tail, b, c, with);
      Regroup(head, ReplaceChar(tail, c, with), ReplaceChar(b, c, with));
    }
  }

  /** One character at a time: a tilde becomes ~0, a slash ~1, and anything else stays. */
  lemma EscapeFirst(key: string)
    requires key != ""
    ensures Escape(key) == (if key[0] == '~' then "~0" else if key[0] == '/' then "~1" else [key[0]]) + Escape(key[1..])
  {
    var first := if key[0] == '~' then "~0" else [key[0]];
    ReplaceCharConcat(first, ReplaceChar(key[1..], '~', "~0"), '/', "~1");
    if key[0] == '~' {
      assert "~0"[1..] == "0" && "0"[1..] == "";
      assert ReplaceChar("0", '/', "~1") == "0";
      assert ReplaceChar("~0", '/', "~1") == "~0";
    } else {
      assert [key[0]][1..] == "";
    }
  }

  lemma {:induction false} UnescapeSlashes(key: string)
    ensures ReplacePair(Escape(key), '~', '1', "/") == ReplaceChar(key, '~', "~0")
  {
    if key != "" {
      var e, rest := Escape(key), Escape(key[1..]);
      EscapeFirst(key);
      UnescapeSlashes(key[1..]);
      if key[0] == '~' {
        assert e[1..][1..] == rest && e[1..][0] == '0';
        assert ReplacePair(e[1..], '~', '1', "/") == ['0'] + ReplacePair(rest, '~', '1', "/");
      } else if key[0] == '/' {
        assert e[2..] == rest;
      } else {
        assert e[1..] == rest;
      }
    }
  }

  lemma {:induction false} UnescapeTildes(key: string)
    ensures ReplacePair(ReplaceChar(key, '~', "~0"), '~', '0', "~") == key
  {
    if key != "" {
      var s := ReplaceChar(key, '~', "~0");
      UnescapeTildes(key[1..]);
      if key[0] == '~' {
        assert s == ['~', '0'] + ReplaceChar(key[1..], '~', "~0");
        assert s[2..] == ReplaceChar(key[1..], '~', "~0");
      } else {
        assert s[1..] == ReplaceChar(key[1..], '~', "~0");
      }
    }
  }

  /** Unescaping undoes escaping for every key, so distinct keys have distinct pointers. */
  lemma EscapeRoundTrip(key: string)
    ensures Unescape(Escape(key)) == key
  {
    UnescapeSlashes(key);
    UnescapeTildes(key);
  }

  // ---- array indexes ----

  /** The element an access key names: only the canonical decimal form of an existing index. */
  function Index(key: string, length: nat): Option<nat> {
    match Atoi(key)
    case None => None
    case Some(n) => if 0 <= n < length && Itoa(n) == key then Some(n) else None
  }

  lemma IndexOfItoa(n: nat, length: nat)
    requires length <= MAX_INT
    ensures Index(Itoa(n), length) == if n < length then Some(n) else None
  {
    ItoaParses(n);
    assert Itoa(n)[0] in Itoa(n);
  }

  // ---- paths ----

  function Parts(path: string): (parts: seq<string>)
    requires path != ""
    ensures parts != []
  {
    Split(path[1..], '/')
  }

  predicate HasPrefix(s: string, prefix: string) { prefix <= s }

  predicate Overlap(p: string, q: string) { p == q || HasPrefix(p, q + "/") || HasPrefix(q, p + "/") }

  /** Two paths overlap exactly when the parts of one begin with those of the other, that is, when one leads to the
      other's node or to one above it. */
  lemma PartsOverlap(p: string, q: string)
    requires p != "" && p[0] == '/' && q != "" && q[0] == '/'
    ensures Overlap(p, q) <==> Parts(p) <= Parts(q) || Parts(q) <= Parts(p)
  {
    if Parts(p) <= Parts(q) { PartsPrefix(p, q); }
    if Parts(q) <= Parts(p) { PartsPrefix(q, p); }
    if HasPrefix(p, q + "/") { PrefixParts(q, p); }
    if HasPrefix(q, p + "/") { PrefixParts(p, q); }
  }

  lemma PrefixParts(p: string, q: string)
    requires p != "" && p[0] == '/' && HasPrefix(q, p + "/")
    ensures Parts(p) <= Parts(q)
  {
    var tail := q[|p| + 1..];
    assert q == p + "/" + tail;
    assert q[1..] == p[1..] + ['/'] + tail;
    SplitConcat(p[1..], tail, '/');
  }

  lemma PartsPrefix(p: string, q: string)
    requires p != "" && p[0] == '/' && q != "" && q[0] == '/' && Parts(p) <= Parts(q)
    ensures Overlap(p, q)
  {
    var a, b := Parts(p), Parts(q);
    SplitJoins(p[1..], '/');
    SplitJoins(q[1..], '/');
    assert p == "/" + p[1..] && q == "/" + q[1..];
    var rest := b[|a|..];
    assert b == a + rest;
    JoinedConcat(a, rest, '/');
    if rest != [] {
      assert q == p + ("/" + rest[0] + Joined(rest[1..], '/'));
      assert q[..|p| + 1] == p + "/";
    } else {
      assert q == p;
    }
  }

  // ---- copyPointer ----

  datatype Code = InvalidCopyPath | MissingCopyPath

  function Child(v: Json, key: string): Result<Json, Code> {
    match v
    case Object(fields) => if key in fields then Ok(fields[key]) else Err(MissingCopyPath)
    case Array(items) =>
      (match Index(key, |items|)
       case None => Err(InvalidCopyPath)
       case Some(i) => Ok(items[i]))
    case _ => Err(InvalidCopyPath)
  }

  function SetChild(v: Json, key: string, x: Json): Json
    requires Child(v, key).Ok?
  {
    match v
    case Object(fields) => Object(fields[key := x])
    case Array(items) => Array(items[Index(key, |items|).value := x])
  }

  function Find(v: Json, parts: seq<string>): Result<Json, Code>
    requires parts != []
    decreases parts
  {
    var key := Unescape(parts[0]);
    if Escape(key) != parts[0] then Err(InvalidCopyPath)
    else match Child(v, key)
      case Err(code) => Err(code)
      case Ok(child) => if |parts| == 1 then Ok(child) else Find(child, parts[1..])
  }

  /** The document with the node at `parts` replaced. */
  function Put(v: Json, parts: seq<string>, x: Json): Json
    requires parts != [] && Find(v, parts).Ok?
    decreases parts
  {
    var key := Unescape(parts[0]);
    SetChild(v, key, if |parts| == 1 then x else Put(Child(v, key).value, parts[1..], x))
  }

  function Lookup(v: Json, path: string): Result<Json, Code> {
    if path == "" || path[0] != '/' then Err(InvalidCopyPath) else Find(v, Parts(path))
  }

  function Replace(v: Json, path: string, x: Json): Json {
    if Lookup(v, path).Ok? then Put(v, Parts(path), x) else v
  }

  // ---- laws of reading and replacing ----

  lemma SetChildLaws(v: Json, key: string, x: Json, y: Json)
    requires Child(v, key).Ok?
    ensures Child(SetChild(v, key, x), key) == Ok(x)
    ensures SetChild(SetChild(v, key, x), key, y) == SetChild(v, key, y)
    ensures SetChild(v, key, Child(v, key).value) == v
  {
  }

  lemma SetChildApart(v: Json, a: string, x: Json, b: string, y: Json)
    requires a != b && Child(v, a).Ok? && Child(v, b).Ok?
    ensures Child(SetChild(v, a, x), b) == Child(v, b) && Child(SetChild(v, b, y), a) == Child(v, a)
    ensures SetChild(SetChild(v, a, x), b, y) == SetChild(SetChild(v, b, y), a, x)
  {
    if v.Array? { SetItemApart(v.items, Index(a, |v.items|).value, x, Index(b, |v.items|).value, y); }
  }

  lemma SetItemApart(items: seq<Json>, i: nat, x: Json, j: nat, y: Json)
    requires i < |items| && j < |items| && i != j
    ensures items[i := x][j] == items[j] && items[i := x][j := y] == items[j := y][i := x]
  {}

  lemma {:induction false} PutLaws(v: Json, parts: seq<string>, x: Json, y: Json)
    requires parts != [] && Find(v, parts).Ok?
    ensures Find(Put(v, parts, x), parts) == Ok(x)
    ensures Put(Put(v, parts, x), parts, y) == Put(v, parts, y)
    ensures Put(v, parts, Find(v, parts).value) == v
    decreases parts
  {
    var key := Unescape(parts[0]);
    var child := Child(v, key).value;
    if |parts| == 1 {
      SetChildLaws(v, key, x, y);
    } else {
      PutLaws(child, parts[1..], x, y);
      SetChildLaws(v, key, Put(child, parts[1..], x), Put(child, parts[1..], y));
    }
  }

  lemma TailsApart(p: seq<string>, q: seq<string>)
    requires p != [] && q != [] && p[0] == q[0] && !(p <= q) && !(q <= p)
    ensures |p| > 1 && |q| > 1 && !(p[1..] <= q[1..]) && !(q[1..] <= p[1..])
  {
    assert p == [p[0]] + p[1..] && q == [q[0]] + q[1..];
    assert p[1..] <= q[1..] ==> p <= q;
    assert q[1..] <= p[1..] ==> q <= p;
  }

  /** Replacing below a child is replacing the child. */
  lemma PutBelow(v: Json, key: string, child: Json, q: seq<string>, y: Json)
    requires |q| > 1 && Unescape(q[0]) == key && Escape(key) == q[0] && Child(v, key).Ok? && Find(child, q[1..]).Ok?
    ensures Find(SetChild(v, key, child), q) == Find(child, q[1..])
    ensures Put(SetChild(v, key, child), q, y) == SetChild(v, key, Put(child, q[1..], y))
  {
    SetChildLaws(v, key, child, Put(child, q[1..], y));
  }

  /** Replacing one node leaves every node that is neither above nor below it alone, and two such replacements
      commute. */
  lemma {:induction false} PutApart(v: Json, p: seq<string>, x: Json, q: seq<string>, y: Json)
    requires p != [] && q != [] && !(p <= q) && !(q <= p) && Find(v, p).Ok? && Find(v, q).Ok?
    ensures Find(Put(v, p, x), q) == Find(v, q) && Find(Put(v, q, y), p) == Find(v, p)
    ensures Put(Put(v, p, x), q, y) == Put(Put(v, q, y), p, x)
    decreases p
  {
    if p[0] == q[0] {
      TailsApart(p, q);
      var key := Unescape(p[0]);
      var child := Child(v, key).value;
      PutApart(child, p[1..], x, q[1..], y);
      PutBelow(v, key, Put(child, p[1..], x), q, y);
      PutBelow(v, key, Put(child, q[1..], y), p, x);
    } else {
      PutElsewhere(v, p, x, q, y);
    }
  }

  /** Only the child on the way to a node matters for reading and replacing it. */
  lemma PutThrough(v: Json, w: Json, q: seq<string>, y: Json)
    requires q != [] && Find(v, q).Ok? && Child(w, Unescape(q[0])) == Child(v, Unescape(q[0]))
    ensures Find(w, q) == Find(v, q)
    ensures Put(w, q, y) == SetChild(w, Unescape(q[0]), Below(v, q, y))
    ensures Put(v, q, y) == SetChild(v, Unescape(q[0]), Below(v, q, y))
  {}

  /** What replaces the first child on the way. */
  function Below(v: Json, q: seq<string>, y: Json): Json
    requires q != [] && Find(v, q).Ok?
  {
    if |q| == 1 then y else Put(Child(v, Unescape(q[0])).value, q[1..], y)
  }

  lemma PutElsewhere(v: Json, p: seq<string>, x: Json, q: seq<string>, y: Json)
    requires p != [] && q != [] && p[0] != q[0] && Find(v, p).Ok? && Find(v, q).Ok?
    ensures Find(Put(v, p, x), q) == Find(v, q) && Find(Put(v, q, y), p) == Find(v, p)
    ensures Put(Put(v, p, x), q, y) == Put(Put(v, q, y), p, x)
  {
    var a, b := Unescape(p[0]), Unescape(q[0]);
    SetChildApart(v, a, Below(v, p, x), b, Below(v, q, y));
    PutThrough(v, SetChild(v, b, Below(v, q, y)), p, x);
    PutThrough(v, SetChild(v, a, Below(v, p, x)), q, y);
  }

  lemma ReplaceLaws(v: Json, p: string, x: Json, y: Json)
    requires Lookup(v, p).Ok?
    ensures Lookup(Replace(v, p, x), p) == Ok(x)
    ensures Replace(Replace(v, p, x), p, y) == Replace(v, p, y)
    ensures Replace(v, p, Lookup(v, p).value) == v
  {
    PutLaws(v, Parts(p), x, y);
  }

  lemma ReplaceApart(v: Json, p: string, x: Json, q: string, y: Json)
    requires Lookup(v, p).Ok? && Lookup(v, q).Ok? && !Overlap(p, q)
    ensures Lookup(Replace(v, p, x), q) == Lookup(v, q) && Lookup(Replace(v, q, y), p) == Lookup(v, p)
    ensures Replace(Replace(v, p, x), q, y) == Replace(Replace(v, q, y), p, x)
  {
    var a, b := Parts(p), Parts(q);
    PartsOverlap(p, q);
    PutApart(v, a, x, b, y);
  }

  // ---- one level down ----

  lemma {:induction false} EscapeHasNoSlash(key: string)
    ensures '/' !in Escape(key)
  {
    if key != "" {
      EscapeFirst(key);
      EscapeHasNoSlash(key[1..]);
    }
  }

  lemma PointerParts(path: string, key: string)
    requires path != "" && path[0] == '/'
    ensures Parts(Pointer(path, key)) == Parts(path) + [Escape(key)]
  {
    EscapeHasNoSlash(key);
    SplitConcat(path[1..], Escape(key), '/');
    SplitOnePart(Escape(key), "", '/');
    RestOf(path, "/" + Escape(key));
    Regroup(path, "/", Escape(key));
    Regroup(path[1..], "/", Escape(key));
  }

  lemma RestOf(a: string, b: string)
    requires a != ""
    ensures (a + b)[1..] == a[1..] + b
  {}

  lemma {:induction false} FindBelow(v: Json, parts: seq<string>, key: string, x: Json)
    requires parts != [] && Find(v, parts).Ok?
    ensures Find(v, parts + [Escape(key)]) == Child(Find(v, parts).value, key)
    ensures Child(Find(v, parts).value, key).Ok? ==>
      Put(v, parts + [Escape(key)], x) == Put(v, parts, SetChild(Find(v, parts).value, key, x))
    decreases parts
  {
    var all := parts + [Escape(key)];
    assert all[0] == parts[0] && all[1..] == parts[1..] + [Escape(key)];
    EscapeRoundTrip(key);
    if |parts| == 1 {
      assert all[1..] == [Escape(key)];
    } else {
      FindBelow(Child(v, Unescape(parts[0])).value, parts[1..], key, x);
    }
  }

  /** The pointer to a child leads to that child, and replacing there is replacing the child. */
  lemma ChildAt(v: Json, path: string, key: string, x: Json)
    requires Lookup(v, path).Ok?
    ensures Lookup(v, Pointer(path, key)) == Child(Lookup(v, path).value, key)
    ensures Child(Lookup(v, path).value, key).Ok? ==>
      Replace(v, Pointer(path, key), x) == Replace(v, path, SetChild(Lookup(v, path).value, key, x))
  {
    PointerParts(path, key);
    FindBelow(v, Parts(path), key, x);
  }

  // ---- which paths lead where ----

  /** The pointer to the node under these keys. */
  function PathOf(keys: seq<string>): string
    decreases |keys|
  {
    if keys == [] then "" else Pointer(PathOf(keys[..|keys| - 1]), keys[|keys| - 1])
  }

  /** The keys lead to the node, through fields by name and through elements by their index in decimal. */
  ghost predicate Reaches(v: Json, keys: seq<string>, node: Json)
    decreases |keys|
  {
    if keys == [] then v == node
    else if v.Object? then keys[0] in v.fields && Reaches(v.fields[keys[0]], keys[1..], node)
    else
      && v.Array?
      && exists i: nat | i < |v.items| && i <= MAX_INT :: keys[0] == Itoa(i) && Reaches(v.items[i], keys[1..], node)
  }

  /** An index is named by its decimal form and nothing else. */
  lemma IndexIff(key: string, length: nat, n: nat)
    ensures Index(key, length) == Some(n) <==> n < length && n <= MAX_INT && key == Itoa(n)
  {
    ItoaParses(n);
    assert Itoa(n)[0] in Itoa(n);
  }

  lemma ReachesByChild(v: Json, keys: seq<string>, node: Json)
    requires keys != []
    ensures Reaches(v, keys, node) <==> Child(v, keys[0]).Ok? && Reaches(Child(v, keys[0]).value, keys[1..], node)
  {
    if v.Array? {
      var found := Index(keys[0], |v.items|);
      if found.Some? { IndexIff(keys[0], |v.items|, found.value); }
      forall i: nat | i < |v.items| && i <= MAX_INT && keys[0] == Itoa(i) ensures found == Some(i) {
        IndexIff(keys[0], |v.items|, i);
      }
    }
  }

  function Escapes(keys: seq<string>): seq<string> { seq(|keys|, i requires 0 <= i < |keys| => Escape(keys[i])) }

  lemma {:induction false} FindByKeys(v: Json, keys: seq<string>, node: Json)
    requires keys != []
    ensures Find(v, Escapes(keys)) == Ok(node) <==> Reaches(v, keys, node)
    decreases |keys|
  {
    EscapeRoundTrip(keys[0]);
    ReachesByChild(v, keys, node);
    assert Escapes(keys)[1..] == Escapes(keys[1..]);
    if |keys| > 1 && Child(v, keys[0]).Ok? { FindByKeys(Child(v, keys[0]).value, keys[1..], node); }
  }

  lemma {:induction false} FoundIsEscaped(v: Json, parts: seq<string>) returns (keys: seq<string>)
    requires parts != [] && Find(v, parts).Ok?
    ensures keys != [] && parts == Escapes(keys)
    decreases |parts|
  {
    var key := Unescape(parts[0]);
    var rest: seq<string> := [];
    if |parts| > 1 { rest := FoundIsEscaped(Child(v, key).value, parts[1..]); }
    keys := [key] + rest;
    EscapesFirst(key, rest);
    HeadAndTail(parts);
    assert |parts| == 1 ==> parts[1..] == Escapes([]);
  }

  lemma HeadAndTail(parts: seq<string>)
    requires parts != []
    ensures parts == [parts[0]] + parts[1..]
  {}

  lemma EscapesFirst(key: string, rest: seq<string>)
    ensures Escapes([key] + rest) == [Escape(key)] + Escapes(rest)
  {}

  lemma {:induction false} PathIsJoined(keys: seq<string>)
    ensures PathOf(keys) == Joined(Escapes(keys), '/')
    decreases |keys|
  {
    if keys != [] {
      var n := |keys| - 1;
      PathIsJoined(keys[..n]);
      assert Escapes(keys) == Escapes(keys[..n]) + [Escape(keys[n])];
      JoinedConcat(Escapes(keys[..n]), [Escape(keys[n])], '/');
      JoinedCons(Escape(keys[n]), [], '/');
      assert [Escape(keys[n])] + [] == [Escape(keys[n])];
    }
  }

  lemma RootParts(key: string)
    ensures var path := Pointer("", key); path != "" && path[0] == '/' && Parts(path) == [Escape(key)]
  {
    EscapeHasNoSlash(key);
    SplitOnePart(Escape(key), "", '/');
    RestOf("/", Escape(key));
    assert "/"[1..] + Escape(key) == Escape(key) && Pointer("", key) == "/" + Escape(key);
  }

  lemma {:induction false} PathParts(keys: seq<string>)
    requires keys != []
    ensures PathOf(keys) != "" && PathOf(keys)[0] == '/' && Parts(PathOf(keys)) == Escapes(keys)
    decreases |keys|
  {
    var n := |keys| - 1;
    var last := Escape(keys[n]);
    if n == 0 {
      RootParts(keys[0]);
      assert PathOf(keys[..0]) == "" && Escapes(keys) == [last];
    } else {
      PathParts(keys[..n]);
      PointerParts(PathOf(keys[..n]), keys[n]);
      assert Escapes(keys) == Escapes(keys[..n]) + [last];
    }
  }

  /** A path finds a node exactly when it is the pointer made of keys that lead to it; so nothing but the canonical
      spelling of a path is accepted, and every node below the root has one. */
  lemma LookupIffKeys(v: Json, path: string, node: Json)
    ensures Lookup(v, path) == Ok(node) <==>
      exists keys :: keys != [] && path == PathOf(keys) && Reaches(v, keys, node)
  {
    if Lookup(v, path) == Ok(node) {
      var keys := FoundIsEscaped(v, Parts(path));
      FindByKeys(v, keys, node);
      PathIsJoined(keys);
      SplitJoins(path[1..], '/');
      assert path == "/" + path[1..];
      assert keys != [] && path == PathOf(keys) && Reaches(v, keys, node);
    }
    forall keys | keys != [] && path == PathOf(keys) && Reaches(v, keys, node) ensures Lookup(v, path) == Ok(node) {
      PathParts(keys);
      FindByKeys(v, keys, node);
    }
  }
}
