/** The keys of the list cache. */
module CacheKeys {
  import opened Decimal

  const PREFIX := "incidents:active:v"
  const VERSION_KEY := "incidents:active:version"

  function OffsetPart(offset: int): string {
    "offset:" + FormatInt(offset)
  }

  function LimitPart(limit: int, offset: int): string {
    "limit:" + (FormatInt(limit) + ":" + OffsetPart(offset))
  }

  function VersionPart(ver: int, limit: int, offset: int): string {
    FormatInt(ver) + ":" + LimitPart(limit, offset)
  }

  /** incidents:active:v<ver>:limit:<limit>:offset:<offset> */
  function PageKey(ver: int, limit: int, offset: int): string {
    PREFIX + VersionPart(ver, limit, offset)
  }

  function UntilColon(s: string): string {
    if s == "" || s[0] == ':' then "" else [s[0]] + UntilColon(s[1..])
  }

  lemma {:induction false} UntilColonStops(a: string, x: string)
    requires ':' !in a
    ensures UntilColon(a + ":" + x) == a
  {
    if a == "" {
      assert (a + ":" + x)[0] == ':';
    } else {
      assert (a + ":" + x)[1..] == a[1..] + ":" + x;
      UntilColonStops(a[1..], x);
    }
  }

  lemma DropPrefix(p: string, x: string, y: string)
    requires p + x == p + y
    ensures x == y
  {
    assert (p + x)[|p|..] == x && (p + y)[|p|..] == y;
  }

  /** What precedes the first colon, and what follows it, are determined. */
  lemma SplitAtColon(a: string, x: string, b: string, y: string)
    requires ':' !in a && ':' !in b
    requires a + ":" + x == b + ":" + y
    ensures a == b && x == y
  {
    UntilColonStops(a, x);
    UntilColonStops(b, y);
    DropPrefix(a + ":", x, y);
  }

  lemma SplitNumber(m: int, x: string, n: int, y: string)
    requires FormatInt(m) + ":" + x == FormatInt(n) + ":" + y
    ensures m == n && x == y
  {
    FormatHasNoColon(m);
    FormatHasNoColon(n);
    SplitAtColon(FormatInt(m), x, FormatInt(n), y);
    FormatInjective(m, n);
  }

  /** Different versions, limits or offsets never share a key. */
  lemma PageKeyInjective(v: int, limit: int, offset: int, v': int, limit': int, offset': int)
    requires PageKey(v, limit, offset) == PageKey(v', limit', offset')
    ensures v == v' && limit == limit' && offset == offset'
  {
    DropPrefix(PREFIX, VersionPart(v, limit, offset), VersionPart(v', limit', offset'));
    SplitNumber(v, LimitPart(limit, offset), v', LimitPart(limit', offset'));
    DropPrefix("limit:", FormatInt(limit) + ":" + OffsetPart(offset), FormatInt(limit') + ":" + OffsetPart(offset'));
    SplitNumber(limit, OffsetPart(offset), limit', OffsetPart(offset'));
    DropPrefix("offset:", FormatInt(offset), FormatInt(offset'));
    FormatInjective(offset, offset');
  }

  lemma {:induction false} NoColonNoStop(s: string)
    requires ':' !in s
    ensures UntilColon(s) == s
  {
    if s != "" { NoColonNoStop(s[1..]); }
  }

  /** The keys as they are written. */
  lemma KeyFormat(ver: int, limit: int, offset: int)
    ensures PageKey(ver, limit, offset) ==
      "incidents:active:v" + FormatInt(ver) + ":limit:" + FormatInt(limit) + ":offset:" + FormatInt(offset)
    ensures VERSION_KEY == "incidents:active:version"
  {
    Flatten(PREFIX, FormatInt(ver), ":", "limit:", FormatInt(limit), "offset:", FormatInt(offset));
    assert ":" + "limit:" == ":limit:" && ":" + "offset:" == ":offset:";
  }

  lemma Flatten(a: string, b: string, colon: string, c: string, d: string, e: string, f: string)
    ensures a + (b + colon + (c + (d + colon + (e + f)))) == a + b + (colon + c) + d + (colon + e) + f
  {
  }

  /** A page key is never the version key. */
  lemma PageKeyIsNotVersionKey(v: int, limit: int, offset: int)
    ensures PageKey(v, limit, offset) != VERSION_KEY
  {
    assert VERSION_KEY == PREFIX + "ersion";
    if PageKey(v, limit, offset) == VERSION_KEY {
      DropPrefix(PREFIX, VersionPart(v, limit, offset), "ersion");
      VersionPartHasColon(v, limit, offset);
      NoColonNoStop("ersion");
    }
  }

  lemma VersionPartHasColon(v: int, limit: int, offset: int)
    ensures UntilColon(VersionPart(v, limit, offset)) != VersionPart(v, limit, offset)
  {
    FormatHasNoColon(v);
    UntilColonStops(FormatInt(v), LimitPart(limit, offset));
    assert |FormatInt(v)| < |VersionPart(v, limit, offset)|;
  }
}
