/** `getClientToken` (lib/auth.js): the browser-side lookup of the session
    cookie in `document.cookie`. */
module ClientToken {
  import opened Wrappers
  import Text

  const TokenName: string := "auth-token"

  /** The text a matching cookie segment starts with once trimmed. */
  const Prefix: string := TokenName + "="

  /** `c.trim().startsWith(`${TOKEN_NAME}=`)` */
  predicate IsTokenSegment(seg: string) {
    Text.StartsWith(Text.Trim(seg), Prefix)
  }

  /** `xs.find(p)`, as a position: the first element satisfying `p`. */
  function FindFirst<T>(xs: seq<T>, p: T -> bool): (r: Option<nat>)
    ensures r.None? <==> forall k :: 0 <= k < |xs| ==> !p(xs[k])
    ensures r.Some? ==>
      && r.value < |xs| && p(xs[r.value])
      && forall k :: 0 <= k < r.value ==> !p(xs[k])
  {
    if |xs| == 0 then None
    else if p(xs[0]) then Some(0)
    else match FindFirst(xs[1..], p)
      case None => None
      case Some(i) => Some(i + 1)
  }

  lemma {:induction false} SplitHead(x: string, sep: char)
    ensures var h := Text.Split(x, sep)[0];
      Text.StartsWith(x, h) && (|h| == |x| || x[|h|] == sep)
  {
    if sep in x {
      var i := Text.IndexOf(x, sep);
      assert Text.Split(x, sep)[0] == x[..i];
    }
  }

  lemma TrimmedWithin(s: string, c: char)
    requires c in Text.Trim(s)
    ensures c in s
  {
    var a := Text.TrimStart(s);
    var t := Text.TrimEnd(a);
    assert Text.Trim(s) == t;
    var k :| 0 <= k < |t| && t[k] == c;
    assert a[k] == t[k] by { assert t == a[..|t|]; }
    assert s[|s| - |a| + k] == a[k] by { assert a == s[|s| - |a|..]; }
  }

  /** `tokenCookie.split('=')[1]`: the text after the first `=` of the segment, up
      to the second `=` or the end. */
  function ValueOf(seg: string): (v: string)
    requires '=' in seg
    ensures '=' !in v
    ensures var i := Text.IndexOf(seg, '=');
      Text.StartsWith(seg[i + 1..], v) && (i + 1 + |v| == |seg| || seg[i + 1 + |v|] == '=')
  {
    var i := Text.IndexOf(seg, '=');
    assert Text.Split(seg, '=')[1] == Text.Split(seg[i + 1..], '=')[0];
    SplitHead(seg[i + 1..], '=');
    Text.Split(seg, '=')[1]
  }

  lemma TokenSegmentHasEquals(seg: string)
    requires IsTokenSegment(seg)
    ensures '=' in seg
  {
    var t := Text.Trim(seg);
    assert t[..|Prefix|] == Prefix;
    assert t[10] == t[..|Prefix|][10] == Prefix[10] == '=';
    TrimmedWithin(seg, '=');
  }

  lemma ValueOfAvoids(seg: string, c: char)
    requires '=' in seg && c !in seg
    ensures c !in ValueOf(seg)
  {
  }

  /** No segment matches, so `find` returns undefined. */
  predicate NoTokenSegment(segs: seq<string>) {
    forall k :: 0 <= k < |segs| ==> !IsTokenSegment(segs[k])
  }

  /** Segment `k` is the one `find` returns: it matches and none before it does. */
  predicate FirstMatch(segs: seq<string>, k: nat) {
    && k < |segs| && IsTokenSegment(segs[k])
    && forall j :: 0 <= j < k ==> !IsTokenSegment(segs[j])
  }

  /** The position of the segment `find` returns, if any. */
  function TokenSegment(segs: seq<string>): (r: Option<nat>)
    ensures r.None? <==> NoTokenSegment(segs)
    ensures r.Some? ==> FirstMatch(segs, r.value) && '=' in segs[r.value]
  {
    var r := FindFirst(segs, IsTokenSegment);
    if r.Some? then TokenSegmentHasEquals(segs[r.value]); r else r
  }

  /** `getClientToken()`: None without a document; otherwise the value of the
      first `;`-separated segment whose trimmed text starts with `auth-token=`. */
  function GetClientToken(document: Option<string>): (r: Option<string>)
    ensures document.None? ==> r.None?
    ensures document.Some? ==>
      var segs := Text.Split(document.value, ';');
      && (r.None? <==> NoTokenSegment(segs))
      && (r.Some? ==> exists k: nat :: FirstMatch(segs, k) && '=' in segs[k] && r.value == ValueOf(segs[k]))
    ensures r.Some? ==> '=' !in r.value && ';' !in r.value
  {
    match document
    case None => None
    case Some(doc) =>
      var segs := Text.Split(doc, ';');
      match TokenSegment(segs)
      case None => None
      case Some(k) =>
        ValueOfAvoids(segs[k], ';');
        Some(ValueOf(segs[k]))
  }

  // ---------------------------------------------------------------- a cookie string

  /** One `name=value` pair as the browser lists it in `document.cookie`. */
  datatype Cookie = Cookie(name: string, value: string)

  /** A pair the lookup can read back: neither part holds `;` or `=`, the name is
      non-empty, and no white space sits where `trim` would remove it. */
  predicate WellFormed(c: Cookie) {
    && |c.name| > 0 && !Text.IsSpace(c.name[0])
    && ';' !in c.name && '=' !in c.name
    && ';' !in c.value && '=' !in c.value
    && (|c.value| == 0 || !Text.IsSpace(c.value[|c.value| - 1]))
  }

  function Segment(first: bool, c: Cookie): string {
    (if first then "" else " ") + c.name + "=" + c.value
  }

  function Segments(cs: seq<Cookie>): seq<string> {
    seq(|cs|, i requires 0 <= i < |cs| => Segment(i == 0, cs[i]))
  }

  /** `document.cookie`: the pairs joined by `"; "`. */
  function Serialize(cs: seq<Cookie>): string {
    Text.Join(Segments(cs), ";")
  }

  /** The trimmed segment of a well-formed pair is `name=value`. */
  lemma TrimSegment(first: bool, c: Cookie)
    requires WellFormed(c)
    ensures Text.Trim(Segment(first, c)) == c.name + "=" + c.value
  {
    var core := c.name + "=" + c.value;
    var pad: string := if first then "" else " ";
    assert Segment(first, c) == pad + core;
    assert core[0] == c.name[0];
    assert core[|core| - 1] == if |c.value| == 0 then '=' else c.value[|c.value| - 1];
    Text.TrimAround(pad, core);
  }

  lemma CoreMatches(name: string, value: string)
    requires '=' !in name
    ensures Text.StartsWith(name + "=" + value, Prefix) <==> name == TokenName
  {
    var core := name + "=" + value;
    if Text.StartsWith(core, Prefix) {
      assert core[..|TokenName|] == TokenName;
      assert core[|TokenName|] == '=';
      assert core[|name|] == '=';
      assert |name| == |TokenName|;
      assert name == core[..|TokenName|];
    }
  }

  /** A well-formed pair matches exactly when its name is `auth-token`; so
      `auth-token2=...` does not. */
  lemma MatchesOnlyTokenName(first: bool, c: Cookie)
    requires WellFormed(c)
    ensures IsTokenSegment(Segment(first, c)) <==> c.name == TokenName
  {
    TrimSegment(first, c);
    CoreMatches(c.name, c.value);
  }

  lemma ValueOfSegment(first: bool, c: Cookie)
    requires WellFormed(c)
    ensures '=' in Segment(first, c)
    ensures ValueOf(Segment(first, c)) == c.value
  {
    var pad: string := if first then "" else " ";
    var seg := Segment(first, c);
    assert seg == Text.Join([pad + c.name, c.value], "=");
    assert seg[|pad + c.name|] == '=';
    Text.SplitJoin([pad + c.name, c.value], '=');
  }

  /** The first pair named `auth-token`, if any. */
  function FirstTokenValue(cs: seq<Cookie>): (r: Option<string>)
    ensures r.None? <==> forall i :: 0 <= i < |cs| ==> cs[i].name != TokenName
    ensures r.Some? ==> exists i :: 0 <= i < |cs| && cs[i].name == TokenName && r.value == cs[i].value
                                   && forall j :: 0 <= j < i ==> cs[j].name != TokenName
  {
    if |cs| == 0 then None
    else if cs[0].name == TokenName then Some(cs[0].value)
    else
      var r := FirstTokenValue(cs[1..]);
      assert r.Some? ==> exists i :: 1 <= i < |cs| && cs[i].name == TokenName && r.value == cs[i].value
                                     && forall j :: 0 <= j < i ==> cs[j].name != TokenName by {
        if r.Some? {
          var i :| 0 <= i < |cs[1..]| && cs[1..][i].name == TokenName && r.value == cs[1..][i].value
                   && forall j :: 0 <= j < i ==> cs[1..][j].name != TokenName;
          assert forall j :: 0 <= j < i + 1 ==> cs[j].name != TokenName by {
            forall j | 0 <= j < i + 1 ensures cs[j].name != TokenName {
              if j > 0 { assert cs[j] == cs[1..][j - 1]; }
            }
          }
        }
      }
      r
  }

  lemma SplitSerialized(cs: seq<Cookie>)
    requires |cs| >= 1
    requires forall i :: 0 <= i < |cs| ==> WellFormed(cs[i])
    ensures Text.Split(Serialize(cs), ';') == Segments(cs)
  {
    var segs := Segments(cs);
    forall k | 0 <= k < |segs| ensures ';' !in segs[k] {
      assert segs[k] == (if k == 0 then "" else " ") + cs[k].name + "=" + cs[k].value;
    }
    Text.SplitJoin(segs, ';');
  }

  lemma SegmentsMatchNames(cs: seq<Cookie>)
    requires forall i :: 0 <= i < |cs| ==> WellFormed(cs[i])
    ensures forall k :: 0 <= k < |cs| ==> (IsTokenSegment(Segments(cs)[k]) <==> cs[k].name == TokenName)
  {
    forall k | 0 <= k < |cs| ensures IsTokenSegment(Segments(cs)[k]) <==> cs[k].name == TokenName {
      MatchesOnlyTokenName(k == 0, cs[k]);
    }
  }

  lemma FirstMatchUnique(segs: seq<string>, i: nat, k: nat)
    requires FirstMatch(segs, i) && FirstMatch(segs, k)
    ensures i == k
  {
  }

  lemma ReadsBackAt(cs: seq<Cookie>, i: nat)
    requires forall j :: 0 <= j < |cs| ==> WellFormed(cs[j])
    requires i < |cs| && cs[i].name == TokenName
    requires forall j :: 0 <= j < i ==> cs[j].name != TokenName
    ensures GetClientToken(Some(Serialize(cs))) == Some(cs[i].value)
  {
    var segs := Segments(cs);
    SplitSerialized(cs);
    SegmentsMatchNames(cs);
    assert FirstMatch(segs, i);
    ReadAtFirstMatch(Serialize(cs), i);
    ValueOfSegment(i == 0, cs[i]);
  }

  /** The lookup returns the value of the segment `find` stops at. */
  lemma ReadAtFirstMatch(doc: string, i: nat)
    requires FirstMatch(Text.Split(doc, ';'), i)
    ensures '=' in Text.Split(doc, ';')[i]
    ensures GetClientToken(Some(doc)) == Some(ValueOf(Text.Split(doc, ';')[i]))
  {
    var segs := Text.Split(doc, ';');
    assert !NoTokenSegment(segs);
    FirstMatchUnique(segs, i, TokenSegment(segs).value);
    TokenSegmentHasEquals(segs[i]);
  }

  lemma ReadsBackNone(cs: seq<Cookie>)
    requires |cs| >= 1
    requires forall j :: 0 <= j < |cs| ==> WellFormed(cs[j])
    requires forall j :: 0 <= j < |cs| ==> cs[j].name != TokenName
    ensures GetClientToken(Some(Serialize(cs))) == None
  {
    SplitSerialized(cs);
    SegmentsMatchNames(cs);
    assert NoTokenSegment(Segments(cs));
  }

  /** Reading back a cookie string made of well-formed pairs yields the value
      of the first pair named `auth-token`, and None when there is none. */
  lemma ReadsBackFirstToken(cs: seq<Cookie>)
    requires |cs| >= 1
    requires forall i :: 0 <= i < |cs| ==> WellFormed(cs[i])
    ensures GetClientToken(Some(Serialize(cs))) == FirstTokenValue(cs)
  {
    var e := FirstTokenValue(cs);
    if e.Some? {
      var i :| 0 <= i < |cs| && cs[i].name == TokenName && e.value == cs[i].value
               && forall j :: 0 <= j < i ==> cs[j].name != TokenName;
      ReadsBackAt(cs, i);
    } else {
      ReadsBackNone(cs);
    }
  }

  /** An empty cookie string holds no token. */
  lemma EmptyCookieString()
    ensures GetClientToken(Some("")) == None
  {
    assert Text.Split("", ';') == [""];
    assert !Text.StartsWith(Text.Trim(""), Prefix);
  }
}
