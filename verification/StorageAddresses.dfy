/** Object keys and the addresses they are stored under, spelled out: which URLs are
recognised, and what becomes of a file name (backend/internal/storage/s3.go and
backend/internal/track/service.go). */
module StorageAddresses {
  import opened Outcomes
  import opened Storage

  // ---------------------------------------------------------------------
  // Prefixes
  // ---------------------------------------------------------------------

  lemma CommonHead(head: string, x: string, y: string)
    ensures head + x <= head + y <==> x <= y
    ensures x <= y ==> (head + y)[|head + x|..] == y[|x|..]
  {
    if head + x <= head + y {
      assert (head + y)[..|head + x|] == head + x;
      assert y[..|x|] == (head + y)[|head|..|head| + |x|] == x;
    }
    if x <= y { assert y == x + y[|x|..]; assert head + y == (head + x) + y[|x|..]; }
  }

  // Two names without a slash, each followed by one, agree if one starts the other.
  lemma FirstSlash(a: string, b: string, path: string)
    requires '/' !in a && '/' !in b
    ensures a + "/" <= b + "/" + path <==> a == b
    ensures (b + "/" + path)[|b + "/"|..] == path
  {
    var x, y := a + "/", b + "/" + path;
    if x <= y {
      assert x[|a|] == '/' && y[|b|] == '/' && y[..|x|] == x;
      assert forall i :: 0 <= i < |a| ==> x[i] == a[i] && a[i] in a;
      assert forall i :: 0 <= i < |b| ==> y[i] == b[i] && b[i] in b;
      assert |a| == |b|;
      assert a == x[..|a|] && b == y[..|b|];
    }
  }

  // ---------------------------------------------------------------------
  // Recognised addresses
  // ---------------------------------------------------------------------

  lemma VirtualHostedPrefix(cfg: Config)
    requires cfg.publicBaseURL == ""
    ensures PublicURL(cfg, "") == "https://" + (cfg.bucket + ".s3." + cfg.region + ".amazonaws.com" + "/")
  {
    var b, r := cfg.bucket, cfg.region;
    assert "https://" + b + ".s3." + r + ".amazonaws.com/"
        == "https://" + (b + ".s3." + r + ".amazonaws.com" + "/");
    assert "https://" + b + ".s3." + r + ".amazonaws.com/" + "" == "https://" + b + ".s3." + r + ".amazonaws.com/";
  }

  /** Without a base URL, the address of a host is recognised exactly if the host is the
      bucket's in its region, and then with its path as the key. */
  lemma VirtualHostedAddress(cfg: Config, host: string, path: string)
    requires cfg.publicBaseURL == "" && '/' !in host && '/' !in cfg.bucket && '/' !in cfg.region
    ensures KeyFromURL(cfg, "https://" + host + "/" + path)
         == if host == cfg.bucket + ".s3." + cfg.region + ".amazonaws.com" then Some(path) else None
  {
    var own := cfg.bucket + ".s3." + cfg.region + ".amazonaws.com";
    VirtualHostedPrefix(cfg);
    assert "https://" + host + "/" + path == "https://" + (host + "/" + path);
    CommonHead("https://", own + "/", host + "/" + path);
    FirstSlash(own, host, path);
  }

  /** Regions have no dot in their names, so another bucket, or another region, is another
      host. */
  lemma HostsDiffer(b1: string, r1: string, b2: string, r2: string)
    requires '.' !in r1 && '.' !in r2
    requires b1 + ".s3." + r1 + ".amazonaws.com" == b2 + ".s3." + r2 + ".amazonaws.com"
    ensures b1 == b2 && r1 == r2
  {
    var h1, h2 := b1 + ".s3." + r1, b2 + ".s3." + r2;
    assert h1 == (h1 + ".amazonaws.com")[..|h1|] && h2 == (h2 + ".amazonaws.com")[..|h2|];
    assert h1 == h2;
    var p1, p2 := b1 + ".s3.", b2 + ".s3.";
    assert h1[|p1| - 1] == '.' && h2[|p2| - 1] == '.';
    assert forall i :: |p1| <= i < |h1| ==> h1[i] == r1[i - |p1|] && r1[i - |p1|] in r1;
    assert forall i :: |p2| <= i < |h2| ==> h2[i] == r2[i - |p2|] && r2[i - |p2|] in r2;
    assert |p1| == |p2|;
    assert p1 == h1[..|p1|] && p2 == h2[..|p2|];
    assert b1 == p1[..|b1|] && b2 == p2[..|b2|] && r1 == h1[|p1|..] && r2 == h2[|p2|..];
  }

  predicate OnlySlashes(s: string) {
    forall c :: c in s ==> c == '/'
  }

  predicate EndsWithSlash(s: string) {
    s != "" && s[|s|-1] == '/'
  }

  lemma {:induction false} SlashesAreTrimmed(base: string, slashes: string)
    requires !EndsWithSlash(base) && OnlySlashes(slashes)
    ensures TrimRight(base + slashes, '/') == base
  {
    if slashes == "" {
      assert base + slashes == base;
    } else {
      var front := slashes[..|slashes|-1];
      assert (base + slashes)[..|base + slashes|-1] == base + front;
      assert slashes[|slashes|-1] in slashes && forall c :: c in front ==> c in slashes;
      SlashesAreTrimmed(base, front);
    }
  }

  /** With a base URL, however many slashes end it, the path-style address of a bucket under
      it is recognised exactly if it is the configured bucket, with the rest as the key; and
      nothing outside the base is. */
  lemma PathStyleAddress(cfg: Config, base: string, slashes: string, bucket: string, key: string)
    requires cfg.publicBaseURL == base + slashes && cfg.publicBaseURL != ""
    requires !EndsWithSlash(base) && OnlySlashes(slashes) && '/' !in bucket && '/' !in cfg.bucket
    ensures KeyFromURL(cfg, base + "/" + bucket + "/" + key) == if bucket == cfg.bucket then Some(key) else None
    ensures forall url :: KeyFromURL(cfg, url).Some? ==> base + "/" <= url
  {
    SlashesAreTrimmed(base, slashes);
    var prefix := base + "/" + cfg.bucket + "/";
    assert prefix + "" == prefix;
    assert PublicURL(cfg, "") == prefix;
    assert base + "/" + bucket + "/" + key == (base + "/") + (bucket + "/" + key);
    assert prefix == (base + "/") + (cfg.bucket + "/");
    CommonHead(base + "/", cfg.bucket + "/", bucket + "/" + key);
    FirstSlash(cfg.bucket, bucket, key);
    forall url | KeyFromURL(cfg, url).Some? ensures base + "/" <= url {
      assert url[..|prefix|] == prefix;
      assert url[..|base + "/"|] == prefix[..|base + "/"|] == base + "/";
    }
  }

  // ---------------------------------------------------------------------
  // File names
  // ---------------------------------------------------------------------

  /** The extension starts at the last dot, if that is after the last slash. */
  lemma {:induction false} ExtFromLastDot(front: string, ext: string)
    requires '.' !in ext && '/' !in ext
    ensures Ext(front + "." + ext) == "." + ext
  {
    var name := front + "." + ext;
    if ext == "" {
      assert name[|name|-1] == '.';
    } else {
      var shorter := ext[..|ext|-1];
      assert name[..|name|-1] == front + "." + shorter;
      assert name[|name|-1] == ext[|ext|-1] && ext[|ext|-1] in ext;
      ExtFromLastDot(front, shorter);
      assert ("." + shorter) + [ext[|ext|-1]] == "." + ext;
    }
  }

  lemma {:induction false} NoDotNoExt(dir: string, name: string)
    requires '.' !in name && '/' !in name && (dir == "" || EndsWithSlash(dir))
    ensures Ext(dir + name) == ""
  {
    if name == "" {
      assert dir + name == dir;
    } else {
      var shorter, full := name[..|name|-1], dir + name;
      assert full[..|full|-1] == dir + shorter;
      assert full[|full|-1] == name[|name|-1] && name[|name|-1] in name;
      NoDotNoExt(dir, shorter);
    }
  }

  lemma {:induction false} AlphanumericStays(s: string)
    requires forall c :: c in s ==> 'a' <= c <= 'z' || 'A' <= c <= 'Z' || '0' <= c <= '9'
    ensures KeepAlphanumeric(s) == s
  {
    if s == "" {
    } else {
      assert forall c :: c in s[1..] ==> c in s;
      AlphanumericStays(s[1..]);
      assert s[0] in s && [s[0]] + s[1..] == s;
    }
  }

  lemma FirstApart(a: string, b: string)
    requires a != ""
    ensures a + b != "" && (a + b)[0] == a[0] && (a + b)[1..] == a[1..] + b
  {
  }

  lemma Regroup(a: string, b: string, c: string)
    ensures (a + b) + c == a + (b + c)
  {
  }

  /** Characters are kept or dropped one by one. */
  lemma {:induction false} KeptOneByOne(a: string, b: string)
    ensures KeepAlphanumeric(a + b) == KeepAlphanumeric(a) + KeepAlphanumeric(b)
  {
    if a == "" {
      assert a + b == b;
    } else {
      KeptOneByOne(a[1..], b);
      FirstApart(a, b);
      var first := if IsAlphanumeric(a[0]) then [a[0]] else "";
      Regroup(first, KeepAlphanumeric(a[1..]), KeepAlphanumeric(b));
    }
  }

  /** The upload key, spelled out: the broadcaster's folder, the uuid, and the extension of
      the file name, if it has one. */
  lemma UploadKeySpelled(broadcaster: string, uuid: string, front: string, ext: string)
    requires ext != "" && forall c :: c in ext ==> 'a' <= c <= 'z' || 'A' <= c <= 'Z' || '0' <= c <= '9'
    ensures UploadKey(broadcaster, uuid, front + "." + ext) == "tracks/" + broadcaster + "/" + uuid + "." + ext
    ensures '.' !in front && '/' !in front ==>
              UploadKey(broadcaster, uuid, front) == "tracks/" + broadcaster + "/" + uuid
  {
    ExtFromLastDot(front, ext);
    AlphanumericStays(ext);
    assert ("." + ext)[1..] == ext;
    assert KeepAlphanumeric("." + ext) == ext;
    assert "tracks/" + broadcaster + "/" + uuid + ("." + ext) == "tracks/" + broadcaster + "/" + uuid + "." + ext;
    if '.' !in front && '/' !in front {
      NoDotNoExt("", front);
      assert "" + front == front;
      var key := "tracks/" + broadcaster + "/" + uuid;
      assert key + "" == key;
    }
  }
}
