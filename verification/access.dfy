/**
 The IP allowlist gate `checkIP`: the `ips` configuration value is split with
 the pattern `[^0-9\.]` (one separator character at a time) using the rules
 of Java's `Pattern.split`, and the caller's address must equal one of the
 resulting strings.
 */
module Access {
  import opened Outcomes
  import opened Config

  /** The characters the pattern `[^0-9\.]` does not match. */
  predicate IsAddressChar(c: char) { '0' <= c <= '9' || c == '.' }

  predicate AddressOnly(t: string) { forall i :: 0 <= i < |t| ==> IsAddressChar(t[i]) }

  /**
   Every piece between two separator characters, empty ones included, read
   one character at a time: a digit or dot joins the first field, a separator
   starts a new one.
   */
  function Fields(s: string): (r: seq<string>)
    ensures |r| >= 1
  {
    if |s| == 0 then [""]
    else
      var rest := Fields(s[1..]);
      if IsAddressChar(s[0]) then [[s[0]] + rest[0]] + rest[1..] else [""] + rest
  }

  /** Drops the empty strings at the end, as `split` with limit 0 does. */
  function StripTrailingEmpty(r: seq<string>): (t: seq<string>)
    ensures t <= r
    ensures t == [] || t[|t| - 1] != ""
    ensures forall k :: |t| <= k < |r| ==> r[k] == ""
  {
    if |r| == 0 || |r[|r| - 1]| != 0 then r else StripTrailingEmpty(r[..|r| - 1])
  }

  /**
   `Pattern.compile("[^0-9\\.]").split(s)`: an input without any match is
   returned whole (so "" gives [""]); otherwise every field is kept, leading
   and interior empty ones too, except the empty ones at the end.
   */
  function Split(s: string): seq<string>
  {
    if AddressOnly(s) then [s] else StripTrailingEmpty(Fields(s))
  }

  /** Whether `checkIP` lets `ip` through under `config`. */
  predicate Allowed(config: Configuration, ip: string)
  {
    "ips" !in config || ip in Split(config["ips"])
  }

  /** The search loop of `checkIP`: whether some entry equals `ip`, stopping at the first. */
  method Listed(entries: seq<string>, ip: string) returns (found: bool)
    ensures found <==> ip in entries
  {
    for i := 0 to |entries|
      invariant forall k :: 0 <= k < i ==> entries[k] != ip
    {
      if ip == entries[i] {
        return true;
      }
    }
    return false;
  }

  /** `checkIP`: everybody passes without `ips`; otherwise the split list must hold `ip`. */
  method CheckIP(config: Configuration, ip: string) returns (r: Outcome<()>)
    ensures r.Ok? <==> Allowed(config, ip)
    ensures r.Thrown? ==> r.error == UserNotAllowed
    ensures "ips" !in config ==> r.Ok?
  {
    if "ips" !in config {
      return Ok(());
    }
    var found := Listed(Split(config["ips"]), ip);
    if found {
      return Ok(());
    }
    return Thrown(UserNotAllowed);
  }

  // ---------------------------------------------------------------------------
  // What the split produces

  /** The separator characters of `s`, in order. */
  function Separators(s: string): seq<char>
  {
    if |s| == 0 then [] else (if IsAddressChar(s[0]) then [] else [s[0]]) + Separators(s[1..])
  }

  /** Puts the separators back between the fields. */
  function Interleave(fields: seq<string>, seps: seq<char>): string
    requires |fields| == |seps| + 1
  {
    if |seps| == 0 then fields[0] else fields[0] + [seps[0]] + Interleave(fields[1..], seps[1..])
  }

  /** Putting a character in front of the first field puts it in front of the whole. */
  lemma InterleaveCons(c: char, r: seq<string>, seps: seq<char>)
    requires |r| == |seps| + 1
    ensures Interleave([[c] + r[0]] + r[1..], seps) == [c] + Interleave(r, seps)
  {
    var f := [[c] + r[0]] + r[1..];
    assert f[0] == [c] + r[0] && f[1..] == r[1..];
    if |seps| > 0 {
      var tail := Interleave(r[1..], seps[1..]);
      assert Interleave(f, seps) == [c] + r[0] + [seps[0]] + tail;
    }
  }

  /** Splitting loses nothing: one more field than separators, and they interleave back to the input. */
  lemma {:induction false} FieldsRoundTrip(s: string)
    ensures |Fields(s)| == |Separators(s)| + 1
    ensures Interleave(Fields(s), Separators(s)) == s
  {
    if |s| > 0 {
      var t := s[1..];
      var r := Fields(t);
      FieldsRoundTrip(t);
      assert s == [s[0]] + t;
      if IsAddressChar(s[0]) {
        assert Separators(s) == Separators(t);
        InterleaveCons(s[0], r, Separators(t));
      } else {
        assert Separators(s) == [s[0]] + Separators(t);
        assert ([""] + r)[1..] == r;
      }
    }
  }

  lemma {:induction false} FieldsAddressOnly(s: string)
    ensures forall f :: f in Fields(s) ==> AddressOnly(f)
  {
    if |s| > 0 {
      var r := Fields(s[1..]);
      FieldsAddressOnly(s[1..]);
      if IsAddressChar(s[0]) {
        assert AddressOnly([s[0]] + r[0]) by {
          assert r[0] in r;
        }
        forall f | f in r[1..] ensures f in r {
        }
      }
    }
  }

  /** Every allowlist entry is made of digits and dots only. */
  lemma SplitAddressOnly(s: string)
    ensures forall t :: t in Split(s) ==> AddressOnly(t)
  {
    FieldsAddressOnly(s);
  }

  /** A string without separators is a single field. */
  lemma {:induction false} FieldsOfAddress(s: string)
    requires AddressOnly(s)
    ensures Fields(s) == [s]
  {
    if |s| > 0 {
      FieldsOfAddress(s[1..]);
      assert [s[0]] + s[1..] == s;
    }
  }

  /** Dropping trailing empty fields changes nothing for a non-empty address. */
  lemma SplitKeepsNonEmpty(s: string, w: string)
    requires w != ""
    ensures w in Split(s) <==> w in Fields(s)
  {
    if AddressOnly(s) {
      FieldsOfAddress(s);
    } else {
      var r := Fields(s);
      var t := StripTrailingEmpty(r);
      if w in r {
        var p :| 0 <= p < |r| && r[p] == w;
        assert p < |t|;
        assert t[p] == w;
      }
    }
  }

  /** `s[i..j]` is a run of digits and dots that cannot be extended on either side. */
  predicate MaximalRun(s: string, i: int, j: int)
  {
    && 0 <= i < j <= |s|
    && AddressOnly(s[i..j])
    && (i == 0 || !IsAddressChar(s[i - 1]))
    && (j == |s| || !IsAddressChar(s[j]))
  }

  /** The first field is the longest prefix of digits and dots. */
  lemma {:induction false} FirstFieldLeads(s: string)
    ensures Fields(s)[0] <= s && AddressOnly(Fields(s)[0])
    ensures |Fields(s)[0]| < |s| ==> !IsAddressChar(s[|Fields(s)[0]|])
  {
    if |s| > 0 && IsAddressChar(s[0]) {
      var t := s[1..];
      FirstFieldLeads(t);
      var f := Fields(t)[0];
      assert Fields(s)[0] == [s[0]] + f;
      assert |f| < |t| ==> s[|f| + 1] == t[|f|];
    }
  }

  /** A maximal run at the start of `s` is its first field, and a non-empty first field is one. */
  lemma LeadingRun(s: string, j: int)
    ensures MaximalRun(s, 0, j) <==> 0 < j == |Fields(s)[0]|
    ensures 0 < j == |Fields(s)[0]| ==> s[0..j] == Fields(s)[0]
  {
    FirstFieldLeads(s);
    var f := Fields(s)[0];
    assert s[0..|f|] == f;
  }

  /** A maximal run of the tail is one of `s`, one position on, unless the run starts the tail and `s[0]` would extend it. */
  lemma RunShift(s: string, i: int, j: int)
    requires |s| > 0 && MaximalRun(s[1..], i, j)
    requires i > 0 || !IsAddressChar(s[0])
    ensures MaximalRun(s, i + 1, j + 1) && s[i + 1..j + 1] == s[1..][i..j]
  {
    var t := s[1..];
    assert s[i + 1..j + 1] == t[i..j] by {
      forall k | 0 <= k < j - i ensures s[i + 1..j + 1][k] == t[i..j][k] {
        assert t[i + k] == s[i + k + 1];
      }
    }
    assert s[i] == (if i == 0 then s[0] else t[i - 1]);
    assert j < |t| ==> s[j + 1] == t[j];
  }

  /** A maximal run of `s` that does not start it is one of the tail, one position back. */
  lemma RunUnshift(s: string, i: int, j: int)
    requires MaximalRun(s, i, j) && i > 0
    ensures MaximalRun(s[1..], i - 1, j - 1) && s[1..][i - 1..j - 1] == s[i..j]
    ensures i == 1 ==> !IsAddressChar(s[0])
  {
    var t := s[1..];
    assert t[i - 1..j - 1] == s[i..j];
    assert i > 1 ==> t[i - 2] == s[i - 1];
    assert j - 1 < |t| ==> t[j - 1] == s[j];
  }

  /** Each non-empty field is a maximal run, one that does not start `s` for every field after the first. */
  lemma {:induction false} FieldIsMaximalRun(s: string, p: nat)
    requires p < |Fields(s)| && Fields(s)[p] != ""
    ensures exists i, j :: MaximalRun(s, i, j) && s[i..j] == Fields(s)[p] && (p > 0 ==> i > 0)
  {
    var w := Fields(s)[p];
    if p == 0 {
      LeadingRun(s, |w|);
      assert MaximalRun(s, 0, |w|) && s[0..|w|] == w;
    } else {
      var t := s[1..];
      var q := if IsAddressChar(s[0]) then p else p - 1;
      assert Fields(t)[q] == w;
      FieldIsMaximalRun(t, q);
      var i, j :| MaximalRun(t, i, j) && t[i..j] == w && (q > 0 ==> i > 0);
      RunShift(s, i, j);
      assert MaximalRun(s, i + 1, j + 1) && s[i + 1..j + 1] == w;
    }
  }

  /** Each maximal run is a field, one after the first when it does not start `s`. */
  lemma {:induction false} MaximalRunIsField(s: string, i: int, j: int)
    requires MaximalRun(s, i, j)
    ensures s[i..j] in Fields(s)
    ensures i > 0 ==> s[i..j] in Fields(s)[1..]
    decreases |s|
  {
    if i == 0 {
      LeadingRun(s, j);
    } else {
      var t := s[1..];
      RunUnshift(s, i, j);
      MaximalRunIsField(t, i - 1, j - 1);
      var r := Fields(t);
      if IsAddressChar(s[0]) {
        assert Fields(s)[1..] == r[1..];
      } else {
        assert Fields(s)[1..] == r;
      }
    }
  }

  lemma FieldsAreMaximalRuns(s: string, w: string)
    requires w != ""
    ensures w in Fields(s) <==> exists i, j :: MaximalRun(s, i, j) && s[i..j] == w
  {
    if w in Fields(s) {
      var p :| 0 <= p < |Fields(s)| && Fields(s)[p] == w;
      FieldIsMaximalRun(s, p);
    }
    if exists i, j :: MaximalRun(s, i, j) && s[i..j] == w {
      var i, j :| MaximalRun(s, i, j) && s[i..j] == w;
      MaximalRunIsField(s, i, j);
    }
  }

  // ---------------------------------------------------------------------------
  // What the gate lets through

  /** Without an `ips` key everybody passes. */
  lemma AbsentListAllowsAll(config: Configuration, ip: string)
    requires "ips" !in config
    ensures Allowed(config, ip)
  {
  }

  /** With an `ips` key, a non-empty address passes exactly when it is a maximal run of digits and dots of the list. */
  lemma AllowedIffMaximalRun(config: Configuration, ip: string)
    requires "ips" in config && ip != ""
    ensures Allowed(config, ip) <==> exists i, j :: MaximalRun(config["ips"], i, j) && config["ips"][i..j] == ip
  {
    SplitKeepsNonEmpty(config["ips"], ip);
    FieldsAreMaximalRuns(config["ips"], ip);
  }

  /** An address holding anything but digits and dots, such as an IPv6 ':' address, never passes a list. */
  lemma NonAddressRejected(config: Configuration, ip: string, p: nat)
    requires "ips" in config && p < |ip| && !IsAddressChar(ip[p])
    ensures !Allowed(config, ip)
  {
    SplitAddressOnly(config["ips"]);
  }

  /** Digits and dots up to a separator make the first field; the rest is split on its own. */
  lemma {:induction false} FieldsPrefix(s: string, a: string, c: char, t: string)
    requires AddressOnly(a) && !IsAddressChar(c) && s == a + [c] + t
    ensures Fields(s) == [a] + Fields(t)
    decreases |a|
  {
    if |a| == 0 {
      assert s[1..] == t;
    } else {
      var a' := a[1..];
      assert s[1..] == a' + [c] + t;
      FieldsPrefix(s[1..], a', c, t);
      assert [a[0]] + a' == a;
    }
  }

  // The examples below take their strings as parameters equal to a literal,
  // which keeps the verifier from unfolding the split functions on literals.

  /** Two addresses joined by one separator split into exactly those two. */
  lemma SplitPair(s: string, a: string, c: char, b: string)
    requires AddressOnly(a) && AddressOnly(b) && b != "" && !IsAddressChar(c)
    requires s == a + [c] + b
    ensures Split(s) == [a, b]
  {
    FieldsOfAddress(b);
    FieldsPrefix(s, a, c, b);
    assert s[|a|] == c;
  }

  lemma SplitCommaList(s: string)
    requires s == "10.0.0.1,10.0.0.2"
    ensures Split(s) == ["10.0.0.1", "10.0.0.2"]
  {
    var a, b := "10.0.0.1", "10.0.0.2";
    assert AddressOnly(a) && AddressOnly(b);
    assert s == a + [','] + b;
    SplitPair(s, a, ',', b);
  }

  /** A comma-separated list admits its members and nothing else nearby. */
  lemma CommaListExample(config: Configuration)
    requires "ips" in config && config["ips"] == "10.0.0.1,10.0.0.2"
    ensures Allowed(config, "10.0.0.1")
    ensures !Allowed(config, "10.0.0.3")
  {
    SplitCommaList(config["ips"]);
    assert "10.0.0.3" != "10.0.0.1" && "10.0.0.3" != "10.0.0.2";
  }

  /** Java returns an input without any separator whole, so the empty list is [""]. */
  lemma SplitOfEmpty()
    ensures Split("") == [""]
  {
  }

  /** A lone separator has only trailing empty fields, so its split is empty. */
  lemma SplitOfSeparatorOnly(s: string, c: char)
    requires !IsAddressChar(c) && s == [c]
    ensures Split(s) == []
  {
    assert s == "" + [c] + "";
    FieldsPrefix(s, "", c, "");
    assert s[0] == c;
  }

  /** A separator at the end adds one empty field. */
  lemma {:induction false} FieldsAppendSeparator(t: string, c: char)
    requires !IsAddressChar(c)
    ensures Fields(t + [c]) == Fields(t) + [""]
  {
    var s := t + [c];
    if |t| == 0 {
      assert s[1..] == [];
    } else {
      var r := Fields(t[1..]);
      assert s[1..] == t[1..] + [c];
      FieldsAppendSeparator(t[1..], c);
      assert Fields(s[1..]) == r + [""];
      if IsAddressChar(t[0]) {
        assert (r + [""])[0] == r[0] && (r + [""])[1..] == r[1..] + [""];
      }
    }
  }

  /** Dropping the trailing empty fields keeps everything up to the last non-empty one. */
  lemma {:induction false} StripCons(x: string, r: seq<string>, p: nat)
    requires p < |r| && r[p] != ""
    ensures StripTrailingEmpty([x] + r) == [x] + StripTrailingEmpty(r)
    decreases |r|
  {
    var n := |r|;
    if r[n - 1] == "" {
      assert ([x] + r)[..n] == [x] + r[..n - 1];
      StripCons(x, r[..n - 1], p);
    }
  }

  lemma StripAppendEmpty(r: seq<string>)
    ensures StripTrailingEmpty(r + [""]) == StripTrailingEmpty(r)
  {
    assert (r + [""])[..|r|] == r;
  }

  /** For a non-empty list, the split is the fields without the trailing empty ones. */
  lemma SplitOfFields(t: string)
    requires t != ""
    ensures Split(t) == StripTrailingEmpty(Fields(t))
  {
    if AddressOnly(t) {
      FieldsOfAddress(t);
    }
  }

  /**
   The field before a separator is kept, empty or not, as long as a
   non-empty field comes later: leading and interior empty entries survive.
   */
  lemma SplitKeepsFieldBeforeSeparator(s: string, a: string, c: char, t: string, p: nat)
    requires AddressOnly(a) && !IsAddressChar(c) && s == a + [c] + t
    requires p < |Fields(t)| && Fields(t)[p] != ""
    ensures Split(s) == [a] + Split(t)
  {
    FieldsPrefix(s, a, c, t);
    assert s[|a|] == c;
    StripCons(a, Fields(t), p);
    assert t != "";
    SplitOfFields(t);
  }

  /** A separator at the end of a non-empty list changes nothing: trailing empty entries are dropped. */
  lemma SplitIgnoresTrailingSeparator(t: string, c: char)
    requires t != "" && !IsAddressChar(c)
    ensures Split(t + [c]) == Split(t)
  {
    var s := t + [c];
    assert s[|t|] == c;
    FieldsAppendSeparator(t, c);
    StripAppendEmpty(Fields(t));
    SplitOfFields(t);
  }

  /** An empty `ips` value is split to [""], so it admits the empty address and nobody else. */
  lemma EmptyListAdmitsOnlyEmptyAddress(ip: string)
    ensures Allowed(map["ips" := ""], ip) <==> ip == ""
  {
    assert Split("") == [""];
  }
}
