/**
 * Session cookies (src/cookies.py): parsing the lines of a Netscape cookie file,
 * normalising the CONSENT cookie, and assembling the cookie set sent with every request.
 * Reading the file itself is not part of this model: the lines are given.
 */
module Cookies {
  import opened Wrappers
  import opened Strings
  import opened Dicts

  const YoutubeDomain: string := ".youtube.com"
  const Pref: string := "hl=en&tz=UTC"

  /** The characters Python's `\s` matches in a `str` pattern (`str.isspace`). */
  predicate IsSpace(c: char) {
    || '\t' <= c <= '\r'
    || '\U{1c}' <= c <= ' '
    || c == '\U{85}' || c == '\U{a0}' || c == '\U{1680}'
    || '\U{2000}' <= c <= '\U{200a}'
    || c == '\U{2028}' || c == '\U{2029}' || c == '\U{202f}' || c == '\U{205f}' || c == '\U{3000}'
  }

  predicate NoSpace(s: string) {
    forall i | 0 <= i < |s| :: !IsSpace(s[i])
  }

  /** The index of the first whitespace character, or `|s|`. */
  function FirstSpace(s: string): (r: nat)
    ensures r <= |s| && NoSpace(s[..r])
    ensures r < |s| ==> IsSpace(s[r])
  {
    if s == [] || IsSpace(s[0]) then 0
    else
      var k := FirstSpace(s[1..]);
      assert s[..k + 1] == [s[0]] + s[1..][..k];
      k + 1
  }

  /** `s` without its leading whitespace. */
  function DropSpaces(s: string): (r: string)
    ensures |r| <= |s| && (r == [] || !IsSpace(r[0]))
  {
    if s != [] && IsSpace(s[0]) then DropSpaces(s[1..]) else s
  }

  /** What `DropSpaces` drops is a run of whitespace in front of what it keeps. */
  lemma {:induction false} DropSpacesSplit(s: string)
    ensures var r := DropSpaces(s); s == s[..|s| - |r|] + r
    ensures var r := DropSpaces(s); forall i | 0 <= i < |s| - |r| :: IsSpace(s[i])
  {
    if s != [] && IsSpace(s[0]) {
      DropSpacesSplit(s[1..]);
      var r := DropSpaces(s);
      assert s[1..] == s[1..][..|s| - 1 - |r|] + r;
      assert forall i | 1 <= i < |s| - |r| :: s[i] == s[1..][i - 1];
    }
  }

  /** `re.split("\s+", s)`: the pieces between maximal runs of whitespace. */
  function Fields(s: string): (r: seq<string>)
    ensures r != []
    ensures forall i | 0 <= i < |r| :: NoSpace(r[i])
    decreases |s|
  {
    var k := FirstSpace(s);
    if k == |s| then [s] else [s[..k]] + Fields(DropSpaces(s[k..]))
  }

  /** A non-empty run of whitespace. */
  predicate Spaces(t: string) {
    t != "" && forall i | 0 <= i < |t| :: IsSpace(t[i])
  }

  /** `fs[0] + seps[0] + fs[1] + ... + fs[|fs| - 1]`. */
  function Interleave(fs: seq<string>, seps: seq<string>): string
    requires |seps| + 1 == |fs|
    decreases |fs|
  {
    if |fs| == 1 then fs[0] else fs[0] + seps[0] + Interleave(fs[1..], seps[1..])
  }

  /** The first piece is empty exactly when the string is empty or starts with whitespace. */
  lemma FieldsFirst(s: string)
    ensures Fields(s)[0] == "" <==> s == "" || IsSpace(s[0])
  {
    var k := FirstSpace(s);
    if k > 0 {
      assert s[..k][0] == s[0];
    }
  }

  /**
   * The pieces are what lies between the maximal runs of whitespace `seps`: put
   * back together with those runs they give `s`, and only the first and the last
   * piece can be empty, the first exactly when `s` starts with whitespace.
   */
  lemma {:induction false} FieldsPieces(s: string) returns (seps: seq<string>)
    ensures |seps| + 1 == |Fields(s)|
    ensures AllSpaces(seps)
    ensures Interleave(Fields(s), seps) == s
    ensures InteriorNonEmpty(Fields(s))
    decreases |s|
  {
    var k := FirstSpace(s);
    if k == |s| {
      seps := [];
      assert s[..k] == s;
    } else {
      var u := s[k..];
      var t := DropSpaces(u);
      var sep := LeadingSpaces(u);
      var rest := FieldsPieces(t);
      seps := [sep] + rest;
      SpacesCons(sep, rest);
      InterleaveCons(s[..k], sep, Fields(t), rest);
      assert Fields(s) == [s[..k]] + Fields(t);
      calc {
        Interleave(Fields(s), seps);
        s[..k] + sep + Interleave(Fields(t), rest);
        s[..k] + sep + t;
        { assert u == sep + t; }
        s[..k] + u;
        { assert s == s[..k] + s[k..]; }
        s;
      }
      if |Fields(t)| > 1 {
        FieldsFirst(t);
      }
      InteriorCons(s[..k], Fields(t));
    }
  }

  /** Every piece except the first and the last is non-empty. */
  predicate InteriorNonEmpty(fs: seq<string>) {
    forall i | 0 < i < |fs| - 1 :: fs[i] != ""
  }

  lemma InteriorCons(f: string, fs: seq<string>)
    requires InteriorNonEmpty(fs) && (|fs| > 1 ==> fs[0] != "")
    ensures InteriorNonEmpty([f] + fs)
  {
    forall i | 0 < i < |[f] + fs| - 1 ensures ([f] + fs)[i] != "" {
      assert ([f] + fs)[i] == fs[i - 1];
    }
  }

  /** A string that starts with whitespace is a run of whitespace followed by the rest. */
  lemma LeadingSpaces(u: string) returns (sep: string)
    requires u != [] && IsSpace(u[0])
    ensures Spaces(sep) && u == sep + DropSpaces(u)
  {
    var t := DropSpaces(u);
    DropSpacesSplit(u);
    sep := u[..|u| - |t|];
    assert |t| < |u| by {
      assert t == DropSpaces(u[1..]);
    }
    forall i | 0 <= i < |sep| ensures IsSpace(sep[i]) {
      assert sep[i] == u[i];
    }
  }

  /** Every separator is a non-empty run of whitespace. */
  predicate AllSpaces(seps: seq<string>) {
    forall i | 0 <= i < |seps| :: Spaces(seps[i])
  }

  lemma SpacesCons(sep: string, rest: seq<string>)
    requires Spaces(sep) && AllSpaces(rest)
    ensures AllSpaces([sep] + rest)
  {
    forall i | 0 < i < |[sep] + rest| ensures Spaces(([sep] + rest)[i]) {
      assert ([sep] + rest)[i] == rest[i - 1];
    }
  }

  lemma InterleaveCons(f: string, sep: string, fs: seq<string>, seps: seq<string>)
    requires |seps| + 1 == |fs|
    ensures Interleave([f] + fs, [sep] + seps) == f + sep + Interleave(fs, seps)
  {
    assert ([f] + fs)[1..] == fs && ([sep] + seps)[1..] == seps;
  }

  /**
   * Fields separated by one whitespace character each (a tab in a cookie file) are
   * split back into exactly those fields.
   */
  lemma {:induction false} FieldsOfJoin(sep: char, fs: seq<string>)
    requires IsSpace(sep) && fs != []
    requires forall i | 0 <= i < |fs| :: fs[i] != [] && NoSpace(fs[i])
    ensures Fields(Join([sep], fs)) == fs
  {
    if |fs| == 1 {
      FirstSpaceOfPlain(fs[0], "");
      assert fs[0] + "" == fs[0];
    } else {
      var rest := Join([sep], fs[1..]);
      var s := Join([sep], fs);
      assert s == fs[0] + ([sep] + rest);
      FirstSpaceOfPlain(fs[0], [sep] + rest);
      assert s[..|fs[0]|] == fs[0];
      assert s[|fs[0]|..] == [sep] + rest;
      JoinStartsWithFirst(sep, fs[1..]);
      assert DropSpaces([sep] + rest) == rest by {
        assert ([sep] + rest)[1..] == rest;
      }
      FieldsOfJoin(sep, fs[1..]);
    }
  }

  lemma {:induction false} FirstSpaceOfPlain(a: string, b: string)
    requires NoSpace(a) && (b == [] || IsSpace(b[0]))
    ensures FirstSpace(a + b) == |a|
  {
    if a != [] {
      assert (a + b)[0] == a[0];
      assert (a + b)[1..] == a[1..] + b;
      FirstSpaceOfPlain(a[1..], b);
    } else {
      assert a + b == b;
    }
  }

  lemma {:induction false} JoinStartsWithFirst(sep: char, fs: seq<string>)
    requires fs != [] && fs[0] != [] && !IsSpace(fs[0][0])
    ensures Join([sep], fs) != [] && !IsSpace(Join([sep], fs)[0])
  {
    if |fs| > 1 {
      assert Join([sep], fs) == fs[0] + [sep] + Join([sep], fs[1..]);
    }
  }

  /** `re.match("^(#.*?)?\.youtube\.com", line)`. */
  predicate IsYoutubeLine(line: string) {
    || StartsWith(line, YoutubeDomain)
    || (line != [] && line[0] == '#' &&
        exists i | 1 <= i <= |line| :: OccursAt(line, YoutubeDomain, i) && '\n' !in line[1..i])
  }

  /** The key (6th field) and value (7th field, or "") of one cookie line. */
  function ParseCookieLine(line: string): (r: Result<(string, string)>)
    ensures r.Err? <==> |Fields(line)| < 6
    ensures r.Ok? ==> r.value.0 == Fields(line)[5]
    ensures r.Ok? && |Fields(line)| == 6 ==> r.value.1 == ""
    ensures r.Ok? && |Fields(line)| > 6 ==> r.value.1 == Fields(line)[6]
  {
    var parts := Fields(line);
    if |parts| < 6 then Err(IndexError)
    else Ok((parts[5], if |parts| >= 7 then parts[6] else ""))
  }

  /** What one line contributes: nothing, a key and its value, or the error of a short cookie line. */
  function LineEntry(line: string): Result<Option<(string, string)>> {
    if !IsYoutubeLine(line) then Ok(None)
    else
      var kv :- ParseCookieLine(line);
      Ok(Some(kv))
  }

  /**
   * The map the lines' entries build, `entry` giving each line's entry: later
   * entries overwrite earlier ones with the same key, and the first failed entry
   * fails the whole.
   */
  function Assigned(entry: string -> Result<Option<(string, string)>>, lines: seq<string>)
    : Result<map<string, string>>
  {
    if lines == [] then Ok(map[])
    else
      var m :- Assigned(entry, lines[..|lines| - 1]);
      var e :- entry(lines[|lines| - 1]);
      if e.None? then Ok(m) else Ok(m[e.value.0 := e.value.1])
  }

  /** The cookie map the lines yield. */
  function LoadedCookies(lines: seq<string>): Result<map<string, string>> {
    Assigned(LineEntry, lines)
  }

  /** The last entry that sets a key gives its value in the map. */
  lemma {:induction false} AssignedFrom(
    entry: string -> Result<Option<(string, string)>>, lines: seq<string>, i: nat, k: string)
    requires Assigned(entry, lines).Ok? && i < |lines| && Sets(entry(lines[i]), k)
    requires forall j | i < j < |lines| :: !Sets(entry(lines[j]), k)
    ensures k in Assigned(entry, lines).value
    ensures Assigned(entry, lines).value[k] == entry(lines[i]).value.value.1
  {
    var n := |lines| - 1;
    var prefix := lines[..n];
    var e := entry(lines[n]);
    assert Assigned(entry, prefix).Ok? && e.Ok?;
    if i < n {
      assert prefix[i] == lines[i];
      forall j | i < j < |prefix| ensures !Sets(entry(prefix[j]), k) {
        assert prefix[j] == lines[j];
      }
      AssignedFrom(entry, prefix, i, k);
    }
  }

  /** The per-line loop of `_load_cookies_file`, over lines already read. */
  method LoadCookies(lines: seq<string>) returns (r: Result<map<string, string>>)
    ensures r == LoadedCookies(lines)
  {
    var cookies: map<string, string> := map[];
    var i := 0;
    while i < |lines|
      invariant 0 <= i <= |lines|
      invariant LoadedCookies(lines[..i]) == Ok(cookies)
    {
      assert lines[..i + 1][..i] == lines[..i];
      var line := lines[i];
      if IsYoutubeLine(line) {
        var parts := Fields(line);
        if |parts| < 6 {
          assert lines[..i + 1][i] == line;
          LoadErrorPersists(lines, i + 1);
          return Err(IndexError);
        }
        var key := parts[5];
        var value := "";
        if |parts| >= 7 {
          value := parts[6];
        }
        cookies := cookies[key := value];
      }
      i := i + 1;
    }
    assert lines[..i] == lines;
    r := Ok(cookies);
  }

  /** Once a prefix of the lines fails to parse, so do all the lines. */
  lemma {:induction false} LoadErrorPersists(lines: seq<string>, n: nat)
    requires n <= |lines| && LoadedCookies(lines[..n]).Err?
    ensures LoadedCookies(lines) == Err(IndexError)
    decreases |lines| - n
  {
    if n == |lines| {
      assert lines[..n] == lines;
    } else {
      assert lines[..n + 1][..n] == lines[..n];
      LoadErrorPersists(lines, n + 1);
    }
  }

  /** The entry sets the key `k`. */
  predicate Sets(e: Result<Option<(string, string)>>, k: string) {
    e.Ok? && e.value.Some? && e.value.value.0 == k
  }

  /** The line is a cookie line that sets the key `k`. */
  predicate SetsKey(line: string, k: string) {
    Sets(LineEntry(line), k)
  }

  /** Every key of the map comes from an entry, the last one that sets it. */
  lemma {:induction false} AssignedLast(
    entry: string -> Result<Option<(string, string)>>, lines: seq<string>, k: string) returns (i: nat)
    requires Assigned(entry, lines).Ok? && k in Assigned(entry, lines).value
    ensures i < |lines| && Sets(entry(lines[i]), k)
    ensures entry(lines[i]).value.value.1 == Assigned(entry, lines).value[k]
    ensures forall j | i < j < |lines| :: !Sets(entry(lines[j]), k)
  {
    var n := |lines| - 1;
    var prefix := lines[..n];
    var m := Assigned(entry, prefix).value;
    var e := entry(lines[n]);
    assert e.Ok?;
    if Sets(e, k) {
      i := n;
    } else {
      assert k in m && Assigned(entry, lines).value[k] == m[k];
      i := AssignedLast(entry, prefix, k);
      assert lines[i] == prefix[i];
      forall j | i < j < |lines|
        ensures !Sets(entry(lines[j]), k)
      {
        if j < n {
          assert lines[j] == prefix[j];
        }
      }
    }
  }

  /**
   * Every loaded cookie comes from a matching line, and its value is the one on the
   * last matching line with that key.
   */
  lemma LoadedCookieIsLast(lines: seq<string>, k: string) returns (i: nat)
    requires LoadedCookies(lines).Ok? && k in LoadedCookies(lines).value
    ensures i < |lines| && SetsKey(lines[i], k)
    ensures ParseCookieLine(lines[i]).value.1 == LoadedCookies(lines).value[k]
    ensures forall j | i < j < |lines| :: !SetsKey(lines[j], k)
  {
    i := AssignedLast(LineEntry, lines, k);
    forall j | i < j < |lines|
      ensures !SetsKey(lines[j], k)
    {
    }
  }

  /** The key of a matching line is loaded, with the value of the last matching line carrying it. */
  lemma LoadedCookieFrom(lines: seq<string>, i: nat, k: string)
    requires LoadedCookies(lines).Ok? && i < |lines| && SetsKey(lines[i], k)
    requires forall j | i < j < |lines| :: !SetsKey(lines[j], k)
    ensures k in LoadedCookies(lines).value
    ensures LoadedCookies(lines).value[k] == ParseCookieLine(lines[i]).value.1
  {
    AssignedFrom(LineEntry, lines, i, k);
  }

  /** Lines the pattern does not match contribute nothing. */
  lemma NonMatchingLineIgnored(lines: seq<string>, line: string)
    requires !IsYoutubeLine(line)
    ensures LoadedCookies(lines + [line]) == LoadedCookies(lines)
  {
    assert (lines + [line])[..|lines|] == lines;
  }

  /** `(?<=PENDING\+)(\d+)` can start its match at `p`: a digit right after "PENDING+". */
  predicate PendingAt(s: string, p: int) {
    8 <= p < |s| && s[p - 8..p] == "PENDING+" && IsDigit(s[p])
  }

  /** The first position `p` where `(?<=PENDING\+)(\d+)` matches, searching from `from`. */
  function PendingFrom(s: string, from: nat): (r: Option<nat>)
    decreases |s| - from
    ensures r.Some? ==> from <= r.value && PendingAt(s, r.value)
    ensures r.Some? ==> forall p | from <= p < r.value :: !PendingAt(s, p)
    ensures r.None? ==> forall p | from <= p :: !PendingAt(s, p)
  {
    if from >= |s| then None
    else if from >= 8 && s[from - 8..from] == "PENDING+" && IsDigit(s[from]) then Some(from)
    else PendingFrom(s, from + 1)
  }

  /** The longest run of digits starting at `p`. */
  function DigitRun(s: string, p: nat): (r: string)
    requires p <= |s|
    ensures IsDigits(r) && p + |r| <= |s| && s[p..p + |r|] == r
    ensures p + |r| < |s| ==> !IsDigit(s[p + |r|])
    decreases |s| - p
  {
    if p < |s| && IsDigit(s[p]) then [s[p]] + DigitRun(s, p + 1) else ""
  }

  /** `_init_consent`; `fallback` stands for `random.randint(100, 999)`. */
  function InitConsent(userConsent: string, fallback: nat): (r: string)
    requires 100 <= fallback <= 999
    ensures Contains(r, "YES")
    ensures Contains(userConsent, "YES") ==> r == userConsent
    ensures !Contains(userConsent, "YES") ==>
      StartsWith(r, "YES+") && |r| > 4 && IsDigits(r[4..])
    ensures !Contains(userConsent, "YES") && (forall p :: !PendingAt(userConsent, p)) ==>
      r == "YES+" + Decimal(fallback) && DigitsValue(r[4..]) == fallback
    ensures !Contains(userConsent, "YES") ==>
      forall p | PendingAt(userConsent, p) && (forall q | 0 <= q < p :: !PendingAt(userConsent, q)) ::
        r == "YES+" + DigitRun(userConsent, p)
  {
    if Contains(userConsent, "YES") then userConsent
    else
      var pending := PendingFrom(userConsent, 0);
      var id := if pending.Some? then DigitRun(userConsent, pending.value) else Decimal(fallback);
      var r := "YES+" + id;
      assert OccursAt(r, "YES", 0);
      assert r[4..] == id;
      DecimalValue(fallback);
      FirstPending(userConsent);
      r
  }

  /** The search from the start stops at the first position where the pattern matches. */
  lemma FirstPending(s: string)
    ensures forall p | PendingAt(s, p) && (forall q | 0 <= q < p :: !PendingAt(s, q)) :: PendingFrom(s, 0) == Some(p)
  {
    forall p | PendingAt(s, p) && (forall q | 0 <= q < p :: !PendingAt(s, q))
      ensures PendingFrom(s, 0) == Some(p)
    {
      var r := PendingFrom(s, 0);
      assert r.Some?;
      assert !(r.value < p);
      assert !(p < r.value);
    }
  }

  function Get(m: map<string, string>, k: string): string {
    if k in m then m[k] else ""
  }

  /**
   * The cookies `initialize_cookies` sends, as a map: the fixed PREF, `__Secure-3PSID`
   * when it was loaded, the normalised CONSENT, then SAPISID and `__Secure-3PAPISID`,
   * each standing in for the other when it is missing or empty.
   */
  function CookieMap(loaded: map<string, string>, fallback: nat): map<string, string>
    requires 100 <= fallback <= 999
  {
    var withPref := map["PREF" := Pref];
    var withSid := if "__Secure-3PSID" in loaded
      then withPref["__Secure-3PSID" := loaded["__Secure-3PSID"]] else withPref;
    var withConsent := withSid["CONSENT" := InitConsent(Get(loaded, "CONSENT"), fallback)];
    var sapisid := if Get(loaded, "SAPISID") == "" && Get(loaded, "__Secure-3PAPISID") != ""
      then Get(loaded, "__Secure-3PAPISID") else Get(loaded, "SAPISID");
    var threepapisid := if Get(loaded, "__Secure-3PAPISID") == "" && sapisid != ""
      then sapisid else Get(loaded, "__Secure-3PAPISID");
    WithAuth(withConsent, sapisid, threepapisid)
  }

  /** `m` with SAPISID and `__Secure-3PAPISID` set to the given values, each only when non-empty. */
  function WithAuth(m: map<string, string>, sapisid: string, threepapisid: string): map<string, string> {
    var withSapisid := if sapisid != "" then m["SAPISID" := sapisid] else m;
    if threepapisid != "" then withSapisid["__Secure-3PAPISID" := threepapisid] else withSapisid
  }

  function Present(k: string, m: map<string, string>): seq<string> {
    if k in m then [k] else []
  }

  /** The order `initialize_cookies` assigns its keys in, restricted to the keys of `m`. */
  function CookieOrder(m: map<string, string>): seq<string> {
    Present("PREF", m) + Present("__Secure-3PSID", m) + Present("CONSENT", m) + Present("SAPISID", m)
      + Present("__Secure-3PAPISID", m)
  }

  /** `initialize_cookies` after the file has been loaded into `loaded`. */
  method BuildCookies(loaded: map<string, string>, fallback: nat) returns (r: Dict<string>)
    requires 100 <= fallback <= 999
    ensures KeysDistinct(r)
    ensures ToMap(r) == CookieMap(loaded, fallback)
    ensures Keys(r) == CookieOrder(CookieMap(loaded, fallback))
  {
    CookieNamesDistinct();
    r := Put([], "PREF", Pref);
    PutToMap([], "PREF", Pref);
    ghost var keys := ["PREF"];
    if "__Secure-3PSID" in loaded {
      Insert(r, "__Secure-3PSID", loaded["__Secure-3PSID"]);
      r := Put(r, "__Secure-3PSID", loaded["__Secure-3PSID"]);
      keys := keys + ["__Secure-3PSID"];
    }
    var consent := InitConsent(Get(loaded, "CONSENT"), fallback);
    Insert(r, "CONSENT", consent);
    r := Put(r, "CONSENT", consent);
    keys := keys + ["CONSENT"];
    assert Keys(r) == keys;
    var threepapisid := Get(loaded, "__Secure-3PAPISID");
    var sapisid := Get(loaded, "SAPISID");
    if sapisid == "" && threepapisid != "" {
      sapisid := threepapisid;
    }
    if threepapisid == "" && sapisid != "" {
      threepapisid := sapisid;
    }
    r := SetAuthCookies(r, sapisid, threepapisid);
    CookieOrderShape(loaded, fallback);
  }

  /** The last two assignments of `initialize_cookies`, each made only with a non-empty value. */
  method SetAuthCookies(d: Dict<string>, sapisid: string, threepapisid: string) returns (r: Dict<string>)
    requires KeysDistinct(d) && "SAPISID" !in Keys(d) && "__Secure-3PAPISID" !in Keys(d)
    ensures KeysDistinct(r) && ToMap(r) == WithAuth(ToMap(d), sapisid, threepapisid)
    ensures Keys(r) == Keys(d) + (if sapisid != "" then ["SAPISID"] else [])
      + (if threepapisid != "" then ["__Secure-3PAPISID"] else [])
  {
    r := d;
    if sapisid != "" {
      Insert(r, "SAPISID", sapisid);
      r := Put(r, "SAPISID", sapisid);
    }
    assert "__Secure-3PAPISID" !in Keys(r);
    if threepapisid != "" {
      Insert(r, "__Secure-3PAPISID", threepapisid);
      r := Put(r, "__Secure-3PAPISID", threepapisid);
    }
  }

  /** The five cookie names are different strings. */
  lemma CookieNamesDistinct()
    ensures "__Secure-3PSID" !in ["PREF"]
    ensures "CONSENT" !in ["PREF", "__Secure-3PSID"]
    ensures "SAPISID" !in ["PREF", "__Secure-3PSID", "CONSENT"]
    ensures "__Secure-3PAPISID" !in ["PREF", "__Secure-3PSID", "CONSENT", "SAPISID"]
  {
    assert "CONSENT"[0] != "SAPISID"[0];
  }

  /** Which keys the cookie set has, in the order they are assigned. */
  lemma CookieOrderShape(loaded: map<string, string>, fallback: nat)
    requires 100 <= fallback <= 999
    ensures var auth := Get(loaded, "SAPISID") != "" || Get(loaded, "__Secure-3PAPISID") != "";
      CookieOrder(CookieMap(loaded, fallback))
        == ["PREF"] + (if "__Secure-3PSID" in loaded then ["__Secure-3PSID"] else []) + ["CONSENT"]
           + (if auth then ["SAPISID", "__Secure-3PAPISID"] else [])
  {
    CookieMapAuth(loaded, fallback);
    CookieMapPassThrough(loaded, fallback);
    CookieMapFixedEntries(loaded, fallback);
  }

  lemma Insert(d: Dict<string>, k: string, v: string)
    requires KeysDistinct(d)
    ensures KeysDistinct(Put(d, k, v)) && ToMap(Put(d, k, v)) == ToMap(d)[k := v]
  {
    PutKeysDistinct(d, k, v);
    PutToMap(d, k, v);
  }

  /** The cookie set always carries the fixed PREF and a CONSENT that says "YES". */
  lemma CookieMapFixedEntries(loaded: map<string, string>, fallback: nat)
    requires 100 <= fallback <= 999
    ensures "PREF" in CookieMap(loaded, fallback) && CookieMap(loaded, fallback)["PREF"] == "hl=en&tz=UTC"
    ensures "CONSENT" in CookieMap(loaded, fallback)
    ensures Contains(CookieMap(loaded, fallback)["CONSENT"], "YES")
  {
  }

  /** SAPISID and `__Secure-3PAPISID` fill in for each other. */
  lemma CookieMapAuth(loaded: map<string, string>, fallback: nat)
    requires 100 <= fallback <= 999
    ensures var m := CookieMap(loaded, fallback);
      && ("SAPISID" in m <==> Get(loaded, "SAPISID") != "" || Get(loaded, "__Secure-3PAPISID") != "")
      && ("SAPISID" in m ==>
            m["SAPISID"] == if Get(loaded, "SAPISID") != "" then loaded["SAPISID"] else loaded["__Secure-3PAPISID"])
      && ("__Secure-3PAPISID" in m <==> Get(loaded, "SAPISID") != "" || Get(loaded, "__Secure-3PAPISID") != "")
      && ("__Secure-3PAPISID" in m ==>
            m["__Secure-3PAPISID"] ==
              if Get(loaded, "__Secure-3PAPISID") != "" then loaded["__Secure-3PAPISID"] else loaded["SAPISID"])
  {
  }

  /** `__Secure-3PSID` is passed through; no other loaded cookie reaches the result. */
  lemma CookieMapPassThrough(loaded: map<string, string>, fallback: nat)
    requires 100 <= fallback <= 999
    ensures var m := CookieMap(loaded, fallback);
      && ("__Secure-3PSID" in m <==> "__Secure-3PSID" in loaded)
      && ("__Secure-3PSID" in m ==> m["__Secure-3PSID"] == loaded["__Secure-3PSID"])
      && m.Keys <= {"PREF", "__Secure-3PSID", "CONSENT", "SAPISID", "__Secure-3PAPISID"}
  {
  }

  /** `initialize_cookies` over the lines of the cookie file (no file: no lines). */
  method InitializeCookies(lines: seq<string>, fallback: nat) returns (r: Result<Dict<string>>)
    requires 100 <= fallback <= 999
    ensures r.Err? <==> LoadedCookies(lines).Err?
    ensures r.Ok? ==> KeysDistinct(r.value) && ToMap(r.value) == CookieMap(LoadedCookies(lines).value, fallback)
    ensures r.Ok? ==> Keys(r.value) == CookieOrder(CookieMap(LoadedCookies(lines).value, fallback))
    ensures r.Ok? ==> Lookup(r.value, "PREF") == Some(Pref) && Lookup(r.value, "CONSENT").Some?
  {
    var loaded := LoadCookies(lines);
    if loaded.Err? {
      return Err(loaded.error);
    }
    var cookies := BuildCookies(loaded.value, fallback);
    CookieMapFixedEntries(loaded.value, fallback);
    LookupToMap(cookies, "PREF");
    LookupToMap(cookies, "CONSENT");
    r := Ok(cookies);
  }
}
