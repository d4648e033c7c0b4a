/** The URL that names a stored object, and how bucket and key are found again from it. */
module StorageUrls {
  import opened Basics

  datatype Location = Location(bucket: string, key: string)

  function UrlOf(endpoint: string, at: Location): string {
    endpoint + "/" + at.bucket + "/" + at.key
  }

  /** `s.replace(p, "")`: every occurrence from the left, without overlaps. */
  function Without(p: string, s: string): (r: string)
    requires p != ""
    ensures |r| <= |s|
    decreases |s|
  {
    if |s| < |p| then s
    else if s[..|p|] == p then Without(p, s[|p|..])
    else [s[0]] + Without(p, s[1..])
  }

  ghost predicate Occurs(p: string, s: string) {
    exists i :: OccursAt(p, s, i)
  }

  predicate OccursAt(p: string, s: string, i: int) {
    0 <= i && i + |p| <= |s| && s[i..i + |p|] == p
  }

  /** `s.split("/", 1)`, which has a second part only if there is a slash. */
  function SplitOnce(s: string): Option<Location> {
    if s == "" then None
    else if s[0] == '/' then Some(Location("", s[1..]))
    else
      match SplitOnce(s[1..])
      case None => None
      case Some(rest) => Some(Location([s[0]] + rest.bucket, rest.key))
  }

  /** The first half of `get_object`; without a slash left it raises. */
  function Locate(endpoint: string, url: string): Option<Location> {
    SplitOnce(Without(endpoint + "/", url))
  }

  /** Text is left alone exactly when the pattern does not occur in it. */
  lemma {:induction false} WithoutIff(p: string, s: string)
    requires p != ""
    ensures Without(p, s) == s <==> !Occurs(p, s)
    ensures Occurs(p, s) ==> |Without(p, s)| < |s|
    decreases |s|
  {
    if |s| < |p| {
    } else if s[..|p|] == p {
      assert OccursAt(p, s, 0);
    } else {
      WithoutIff(p, s[1..]);
      OccursLater(p, s);
      assert s == [s[0]] + s[1..];
    }
  }

  lemma {:induction false} OccursLater(p: string, s: string)
    requires p != "" && |s| >= |p| && s[..|p|] != p
    ensures Occurs(p, s) <==> Occurs(p, s[1..])
  {
    if Occurs(p, s) {
      var i :| OccursAt(p, s, i);
      assert s[1..][i - 1..i - 1 + |p|] == s[i..i + |p|];
      assert OccursAt(p, s[1..], i - 1);
    }
    if Occurs(p, s[1..]) {
      var i :| OccursAt(p, s[1..], i);
      assert s[1..][i..i + |p|] == s[i + 1..i + 1 + |p|];
      assert OccursAt(p, s, i + 1);
    }
  }

  lemma {:induction false} SplitJoins(s: string)
    ensures SplitOnce(s).Some? ==>
              var l := SplitOnce(s).value;
              s == l.bucket + "/" + l.key && '/' !in l.bucket
  {
    if s != "" && s[0] != '/' {
      SplitJoins(s[1..]);
      assert s == [s[0]] + s[1..];
    }
  }

  lemma {:induction false} SplitAtFirst(bucket: string, key: string)
    requires '/' !in bucket
    ensures SplitOnce(bucket + "/" + key) == Some(Location(bucket, key))
  {
    var s := bucket + "/" + key;
    if bucket == "" {
      assert s[1..] == key;
    } else {
      SplitAtFirst(bucket[1..], key);
      assert s[1..] == bucket[1..] + "/" + key;
      assert bucket == [bucket[0]] + bucket[1..];
    }
  }

  /**
   An object is found again exactly when its bucket has no slash and the endpoint with its
   slash does not occur in the rest of the URL, where it would be cut out as well.
   */
  lemma {:induction false} LocateIff(endpoint: string, at: Location)
    ensures Locate(endpoint, UrlOf(endpoint, at)) == Some(at) <==>
            '/' !in at.bucket && !Occurs(endpoint + "/", at.bucket + "/" + at.key)
  {
    var p, rest := endpoint + "/", at.bucket + "/" + at.key;
    var url := UrlOf(endpoint, at);
    assert url == p + rest && url[..|p|] == p && url[|p|..] == rest;
    assert Without(p, url) == Without(p, rest);
    WithoutIff(p, rest);
    if '/' !in at.bucket {
      SplitAtFirst(at.bucket, at.key);
    }
    SplitJoins(Without(p, rest));
  }

  /** A slash in the bucket, or the endpoint again inside the key, and the object is not found. */
  lemma {:induction false} LostUrls()
    ensures Locate("s3", UrlOf("s3", Location("a/b", "k"))) != Some(Location("a/b", "k"))
    ensures Locate("s3", UrlOf("s3", Location("b", "s3/k"))) != Some(Location("b", "s3/k"))
  {
    LocateIff("s3", Location("a/b", "k"));
    assert "a/b"[1] == '/';
    LocateIff("s3", Location("b", "s3/k"));
    assert "b" + "/" + "s3/k" == "b/s3/k" && "s3" + "/" == "s3/";
    assert OccursAt("s3/", "b/s3/k", 2);
  }
}
