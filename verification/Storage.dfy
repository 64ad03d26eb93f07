/** Object keys and public URLs (backend/internal/storage/s3.go and the key
construction of PresignUpload in backend/internal/track/service.go). */
module Storage {
  import opened Outcomes

  // publicBaseURL "" means the virtual-hosted AWS URL.
  datatype Config = Config(bucket: string, region: string, publicBaseURL: string)

  function TrimRight(s: string, c: char): string {
    if s != "" && s[|s|-1] == c then TrimRight(s[..|s|-1], c) else s
  }

  function PublicURL(cfg: Config, key: string): string {
    if cfg.publicBaseURL == ""
    then "https://" + cfg.bucket + ".s3." + cfg.region + ".amazonaws.com/" + key
    else TrimRight(cfg.publicBaseURL, '/') + "/" + cfg.bucket + "/" + key
  }

  function KeyFromURL(cfg: Config, url: string): Option<string> {
    var prefix := PublicURL(cfg, "");
    if prefix <= url then Some(url[|prefix|..]) else None
  }

  lemma PublicURLIsPrefixed(cfg: Config, key: string)
    ensures PublicURL(cfg, key) == PublicURL(cfg, "") + key
  {
    if cfg.publicBaseURL == "" {
      var host := "https://" + cfg.bucket + ".s3." + cfg.region + ".amazonaws.com/";
      assert host + "" == host;
    } else {
      var base := TrimRight(cfg.publicBaseURL, '/') + "/" + cfg.bucket + "/";
      assert base + "" == base;
    }
  }

  /** For every configuration and key, KeyFromURL recognises exactly the public URL of
      the key and gives the key back. */
  lemma KeyFromURLInverts(cfg: Config, url: string, key: string)
    ensures KeyFromURL(cfg, url) == Some(key) <==> url == PublicURL(cfg, key)
  {
    PublicURLIsPrefixed(cfg, key);
    var prefix := PublicURL(cfg, "");
    if prefix <= url { assert url == prefix + url[|prefix|..]; }
  }

  // path.Ext: the suffix from the last dot of the last path element.
  function Ext(name: string): string {
    if name == "" || name[|name|-1] == '/' then ""
    else if name[|name|-1] == '.' then "."
    else
      var front := Ext(name[..|name|-1]);
      if front == "" then "" else front + [name[|name|-1]]
  }

  predicate IsAlphanumeric(c: char) {
    'a' <= c <= 'z' || 'A' <= c <= 'Z' || '0' <= c <= '9'
  }

  // An extension may hold letters and digits only; the rest is dropped.
  function KeepAlphanumeric(s: string): string {
    if s == "" then "" else (if IsAlphanumeric(s[0]) then [s[0]] else "") + KeepAlphanumeric(s[1..])
  }

  function DotIfNotEmpty(ext: string): string {
    if ext == "" then "" else "." + ext
  }

  function UploadKey(broadcaster: string, uuid: string, filename: string): string {
    "tracks/" + broadcaster + "/" + uuid + DotIfNotEmpty(KeepAlphanumeric(Ext(filename)))
  }

  lemma {:induction false} OnlyAlphanumericKept(s: string)
    ensures forall c :: c in KeepAlphanumeric(s) ==> IsAlphanumeric(c)
  {
    if s == "" {
    } else {
      OnlyAlphanumericKept(s[1..]);
    }
  }

  /** Whatever the file name, the upload key stays directly inside the broadcaster's
      folder, and keys with different uuids differ. */
  lemma UploadKeysAreScopedAndFresh(broadcaster: string, u1: string, u2: string, f1: string, f2: string)
    requires '/' !in u1 && |u1| == |u2| && u1 != u2
    ensures var folder := "tracks/" + broadcaster + "/";
            && folder <= UploadKey(broadcaster, u1, f1)
            && '/' !in UploadKey(broadcaster, u1, f1)[|folder|..]
            && UploadKey(broadcaster, u1, f1) != UploadKey(broadcaster, u2, f2)
  {
    UploadKeyIsScoped(broadcaster, u1, f1);
    UploadKeyIsScoped(broadcaster, u2, f2);
    var e1, e2 := DotIfNotEmpty(KeepAlphanumeric(Ext(f1))), DotIfNotEmpty(KeepAlphanumeric(Ext(f2)));
    assert (u1 + e1)[..|u1|] == u1 && (u2 + e2)[..|u2|] == u2;
  }

  lemma UploadKeyIsScoped(broadcaster: string, uuid: string, filename: string)
    ensures var folder := "tracks/" + broadcaster + "/";
            var key := UploadKey(broadcaster, uuid, filename);
            && folder <= key
            && key[|folder|..] == uuid + DotIfNotEmpty(KeepAlphanumeric(Ext(filename)))
            && ('/' !in uuid ==> '/' !in key[|folder|..])
  {
    OnlyAlphanumericKept(Ext(filename));
    InFolder("tracks/" + broadcaster + "/", uuid, DotIfNotEmpty(KeepAlphanumeric(Ext(filename))));
  }

  lemma InFolder(folder: string, name: string, ext: string)
    ensures folder <= folder + name + ext && (folder + name + ext)[|folder|..] == name + ext
  {
    assert folder + name + ext == folder + (name + ext);
  }
}
