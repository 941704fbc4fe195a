/**
  Line-protocol output of the transcript collector (grafana/claude-usage-collector/collector.py):
  the tag escaping, and what a reader gets back from a built line.

  The repository only writes lines. The reader is this model's own: it takes the
  character after a backslash literally and ends a tag value at the first bare comma
  or space.
*/
module LineProtocol {
  import opened Prelude

  function Replace(s: string, c: char, sub: string): string {
    if s == "" then "" else (if s[0] == c then sub else [s[0]]) + Replace(s[1..], c, sub)
  }

  /** Four replacements, the backslash first. */
  function Esc(v: string): string {
    Replace(Replace(Replace(Replace(v, '\\', "\\\\"), ' ', "\\ "), ',', "\\,"), '=', "\\=")
  }

  predicate Special(c: char) {
    c == '\\' || c == ' ' || c == ',' || c == '='
  }

  function EscChar(c: char): string {
    if Special(c) then ['\\', c] else [c]
  }

  function EscEach(s: string): string {
    if s == "" then "" else EscChar(s[0]) + EscEach(s[1..])
  }

  lemma {:induction false} ReplaceOfConcat(a: string, b: string, c: char, sub: string)
    ensures Replace(a + b, c, sub) == Replace(a, c, sub) + Replace(b, c, sub)
  {
    if a == "" {
      assert a + b == b;
    } else {
      assert (a + b)[1..] == a[1..] + b;
      ReplaceOfConcat(a[1..], b, c, sub);
    }
  }

  lemma ReplaceShort(x: char, y: char, c: char, sub: string)
    ensures Replace([x], c, sub) == if x == c then sub else [x]
    ensures x != c && y != c ==> Replace([x, y], c, sub) == [x, y]
  {
    assert [x][1..] == "" && [x, y][1..] == [y] && [y][1..] == "";
    assert (if x == c then sub else [x]) + "" == if x == c then sub else [x];
  }

  lemma EscOfConcat(a: string, b: string)
    ensures Esc(a + b) == Esc(a) + Esc(b)
  {
    ReplaceOfConcat(a, b, '\\', "\\\\");
    var a1, b1 := Replace(a, '\\', "\\\\"), Replace(b, '\\', "\\\\");
    ReplaceOfConcat(a1, b1, ' ', "\\ ");
    var a2, b2 := Replace(a1, ' ', "\\ "), Replace(b1, ' ', "\\ ");
    ReplaceOfConcat(a2, b2, ',', "\\,");
    ReplaceOfConcat(Replace(a2, ',', "\\,"), Replace(b2, ',', "\\,"), '=', "\\=");
  }

  /** Exactly the backslash, the space, the comma and the equals sign get a backslash in front. */
  lemma EscOfChar(c: char)
    ensures Esc([c]) == EscChar(c)
    ensures Esc([c]) == if c == '\\' || c == ' ' || c == ',' || c == '=' then ['\\', c] else [c]
  {
    ReplaceShort(c, c, '\\', "\\\\");
    ReplaceShort(c, c, ' ', "\\ ");
    ReplaceShort(c, c, ',', "\\,");
    ReplaceShort(c, c, '=', "\\=");
    ReplaceShort('\\', c, ' ', "\\ ");
    ReplaceShort('\\', c, ',', "\\,");
    ReplaceShort('\\', c, '=', "\\=");
  }

  /** The four passes do not trip over one another: together they escape each special character once. */
  lemma {:induction false} EscIsCharwise(s: string)
    ensures Esc(s) == EscEach(s)
  {
    if s != "" {
      assert s == [s[0]] + s[1..];
      EscOfConcat([s[0]], s[1..]);
      EscOfChar(s[0]);
      EscIsCharwise(s[1..]);
    }
  }

  // ---- reading back ----

  predicate Ends(s: string) {
    s == "" || s[0] == ',' || s[0] == ' '
  }

  /** One tag value, unescaped, and what follows it. */
  function ReadValue(s: string): (r: (string, string))
    ensures |r.1| <= |s|
  {
    if Ends(s) then ("", s)
    else if s[0] == '\\' && |s| > 1 then
      var (v, rest) := ReadValue(s[2..]);
      ([s[1]] + v, rest)
    else
      var (v, rest) := ReadValue(s[1..]);
      ([s[0]] + v, rest)
  }

  lemma {:induction false} ReadEach(v: string, rest: string)
    requires Ends(rest)
    ensures ReadValue(EscEach(v) + rest) == (v, rest)
  {
    if v == "" {
      assert EscEach(v) + rest == rest;
    } else {
      var c, tail := v[0], EscEach(v[1..]) + rest;
      ReadEach(v[1..], rest);
      ReadChar(c, tail, v[1..], rest);
      Associate(EscChar(c), EscEach(v[1..]), rest);
      assert v == [c] + v[1..];
    }
  }

  lemma ReadChar(c: char, tail: string, v: string, rest: string)
    requires ReadValue(tail) == (v, rest)
    ensures ReadValue(EscChar(c) + tail) == ([c] + v, rest)
  {
    var s := EscChar(c) + tail;
    if Special(c) {
      assert s[0] == '\\' && s[1] == c && s[2..] == tail;
    } else {
      assert s[0] == c && s[1..] == tail;
    }
  }

  /** Escaping loses nothing: the reader gets any value back, whatever follows it. */
  lemma ReadUndoesEsc(v: string, rest: string)
    requires Ends(rest)
    ensures ReadValue(Esc(v) + rest) == (v, rest)
  {
    EscIsCharwise(v);
    ReadEach(v, rest);
  }

  // ---- a whole line ----

  /** A usage record: its four tags, and its fields and time as printed. */
  datatype Record = Record(model: string, project: string, tier: string, session: string, fields: string, time: string)

  function Tag(key: string, value: string): string {
    "," + key + "=" + Esc(value)
  }

  function BuildLine(rec: Record): string {
    "tokens,source=claude-cli" + (Tag("model", rec.model) + AfterModel(rec))
  }

  function AfterModel(rec: Record): string {
    Tag("project", rec.project) + (Tag("service_tier", rec.tier) + (Tag("session", rec.session) + AfterTags(rec)))
  }

  function AfterTags(rec: Record): string {
    " " + rec.fields + " " + rec.time
  }

  /** A tag key, up to a bare equals sign, and what follows it. */
  function ReadKey(s: string): (r: (string, string))
    ensures |r.1| <= |s|
  {
    if s == "" || s[0] == '=' then ("", s)
    else
      var (key, rest) := ReadKey(s[1..]);
      ([s[0]] + key, rest)
  }

  /** Tags while there are any, and what follows them. */
  function ReadTags(s: string): (seq<(string, string)>, string)
    decreases |s|
  {
    if s == "" || s[0] != ',' || ReadKey(s[1..]).1 == "" then ([], s)
    else
      var (key, r) := ReadKey(s[1..]);
      var (value, rest) := ReadValue(r[1..]);
      var (tags, end) := ReadTags(rest);
      ([(key, value)] + tags, end)
  }

  /** The measurement of a line, its tags, and what follows them. */
  function ReadLine(line: string): (string, seq<(string, string)>, string) {
    var (name, r) := ReadValue(line);
    var (tags, rest) := ReadTags(r);
    (name, tags, rest)
  }

  predicate Unspecial(s: string) {
    forall c :: c in s ==> !Special(c)
  }

  lemma {:induction false} ReadKeyTo(key: string, rest: string)
    requires Unspecial(key)
    ensures ReadKey(key + ("=" + rest)) == (key, "=" + rest)
  {
    if key == "" {
      assert key + ("=" + rest) == "=" + rest;
    } else {
      var s := key + ("=" + rest);
      assert key[0] in key && s[0] == key[0] != '=' && s[1..] == key[1..] + ("=" + rest);
      assert forall c :: c in key[1..] ==> c in key;
      ReadKeyTo(key[1..], rest);
      assert key == [key[0]] + key[1..];
    }
  }

  lemma {:induction false} EscOfUnspecial(s: string)
    requires Unspecial(s)
    ensures EscEach(s) == s
  {
    if s != "" {
      assert forall c :: c in s[1..] ==> c in s;
      EscOfUnspecial(s[1..]);
      assert s == [s[0]] + s[1..];
    }
  }

  /** One tag off the front. */
  lemma ReadOneTag(key: string, value: string, rest: string)
    requires Unspecial(key) && Ends(rest)
    ensures ReadTags(Tag(key, value) + rest) == ([(key, value)] + ReadTags(rest).0, ReadTags(rest).1)
  {
    var s, body := Tag(key, value) + rest, Esc(value) + rest;
    TagParts(key, value, rest);
    ReadKeyTo(key, body);
    ReadUndoesEsc(value, rest);
    TagNext(s, key, value, body, rest);
  }

  lemma TagParts(key: string, value: string, rest: string)
    ensures var s := Tag(key, value) + rest; s != "" && s[0] == ',' && s[1..] == key + ("=" + (Esc(value) + rest))
  {}

  lemma TagNext(s: string, key: string, value: string, body: string, rest: string)
    requires s != "" && s[0] == ',' && ReadKey(s[1..]) == (key, "=" + body) && ReadValue(body) == (value, rest)
    ensures ReadTags(s) == ([(key, value)] + ReadTags(rest).0, ReadTags(rest).1)
  {
    assert ("=" + body)[1..] == body;
  }

  /** Two tags off the front. */
  lemma ReadTwoTags(k1: string, v1: string, k2: string, v2: string, rest: string)
    requires Unspecial(k1) && Unspecial(k2) && Ends(rest)
    ensures var (tags, end) := ReadTags(rest);
            ReadTags(Tag(k1, v1) + (Tag(k2, v2) + rest)) == ([(k1, v1)] + ([(k2, v2)] + tags), end)
  {
    assert Ends(Tag(k2, v2) + rest);
    ReadOneTag(k2, v2, rest);
    ReadOneTag(k1, v1, Tag(k2, v2) + rest);
  }

  /** Four tags off the front. */
  lemma ReadFourTags(k1: string, v1: string, k2: string, v2: string, k3: string, v3: string, k4: string, v4: string,
                     rest: string)
    requires Unspecial(k1) && Unspecial(k2) && Unspecial(k3) && Unspecial(k4)
    requires Ends(rest) && ReadTags(rest) == ([], rest)
    ensures ReadTags(Tag(k1, v1) + (Tag(k2, v2) + (Tag(k3, v3) + (Tag(k4, v4) + rest)))) ==
            ([(k1, v1), (k2, v2), (k3, v3), (k4, v4)], rest)
  {
    assert Ends(Tag(k3, v3) + (Tag(k4, v4) + rest));
    ReadTwoTags(k3, v3, k4, v4, rest);
    ReadTwoTags(k1, v1, k2, v2, Tag(k3, v3) + (Tag(k4, v4) + rest));
    OneByOne((k1, v1), (k2, v2), (k3, v3), (k4, v4));
  }

  lemma OneByOne<T>(a: T, b: T, c: T, d: T)
    ensures [a] + ([b] + ([c] + ([d] + []))) == [a, b, c, d]
  {}

  /** A measurement and a first tag without special characters. */
  lemma ReadHead(name: string, key: string, value: string, rest: string)
    requires Unspecial(name) && Unspecial(key) && Unspecial(value) && Ends(rest)
    ensures ReadLine(name + ("," + key + "=" + value) + rest) ==
            (name, [(key, value)] + ReadTags(rest).0, ReadTags(rest).1)
  {
    EscIsCharwise(value);
    EscOfUnspecial(value);
    EscOfUnspecial(name);
    var first := Tag(key, value);
    Associate(name, first, rest);
    ReadEach(name, first + rest);
    ReadOneTag(key, value, rest);
  }

  function RecordTags(rec: Record): seq<(string, string)> {
    [("model", rec.model), ("project", rec.project), ("service_tier", rec.tier), ("session", rec.session)]
  }

  lemma RecordReads(rec: Record)
    ensures ReadTags(Tag("model", rec.model) + AfterModel(rec)) == (RecordTags(rec), AfterTags(rec))
  {
    ReadFourTags("model", rec.model, "project", rec.project, "service_tier", rec.tier, "session", rec.session,
                 AfterTags(rec));
  }

  lemma HeadReads(rest: string)
    requires Ends(rest)
    ensures ReadLine("tokens,source=claude-cli" + rest) ==
            ("tokens", [("source", "claude-cli")] + ReadTags(rest).0, ReadTags(rest).1)
  {
    HeadIsPlain();
    ReadHead("tokens", "source", "claude-cli", rest);
  }

  lemma HeadIsPlain()
    ensures Unspecial("tokens") && Unspecial("source") && Unspecial("claude-cli")
    ensures "tokens" + ("," + "source" + "=" + "claude-cli") == "tokens,source=claude-cli"
  {}

  lemma InFront<T>(a: T, b: T, c: T, d: T, e: T)
    ensures [a] + [b, c, d, e] == [a, b, c, d, e]
  {}

  /**
    Whatever characters the tags hold, a built line reads back as its measurement, its
    five tags by name, and its own fields and time.
  */
  lemma TagsReadBack(rec: Record)
    ensures ReadLine(BuildLine(rec)) ==
            ("tokens",
             [("source", "claude-cli"), ("model", rec.model), ("project", rec.project), ("service_tier", rec.tier),
              ("session", rec.session)],
             " " + rec.fields + " " + rec.time)
  {
    RecordReads(rec);
    HeadReads(Tag("model", rec.model) + AfterModel(rec));
    InFront(("source", "claude-cli"), ("model", rec.model), ("project", rec.project), ("service_tier", rec.tier),
            ("session", rec.session));
  }

  /** So equal lines come from records with equal tags, and equal fields and time together. */
  lemma LinesTellRecordsApart(a: Record, b: Record)
    requires BuildLine(a) == BuildLine(b)
    ensures a.model == b.model && a.project == b.project && a.tier == b.tier && a.session == b.session
    ensures " " + a.fields + " " + a.time == " " + b.fields + " " + b.time
  {
    TagsReadBack(a);
    TagsReadBack(b);
    var tags := ReadLine(BuildLine(a)).1;
    assert tags[1] == ("model", a.model) && tags[2] == ("project", a.project);
    assert tags[3] == ("service_tier", a.tier) && tags[4] == ("session", a.session);
  }
}
