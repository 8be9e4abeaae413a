/** Resume and job-description files kept in an Azure Blob Storage
    container. The container is a class holding its blobs by name; a
    failure of the Azure SDK is an oracle parameter (`fault`). Also here:
    how the routers turn a stored file URL back into a blob path, with
    `urlparse(url).path.lstrip("/<container>/")`. */
module AzureStorage {
  import opened Values
  import opened PyStr

  /** The name under which a file is uploaded. */
  function BlobName(uid: string, candidateId: string, filename: string): string
  {
    uid + "/" + candidateId + "/" + filename
  }

  const HostSuffix: string := ".blob.core.windows.net"

  /** The URL returned for an uploaded blob. */
  function BlobUrl(account: string, container: string, blobName: string): string
  {
    "https://" + account + HostSuffix + "/" + container + "/" + blobName
  }

  const DefaultContentType: string := "application/octet-stream"

  /** `content_type or "application/octet-stream"`: never empty, and any
      non-empty content type is kept. */
  function ContentTypeOrDefault(contentType: Option<string>): (r: string)
    ensures r != ""
    ensures contentType.Some? && contentType.value != "" ==> r == contentType.value
    ensures contentType.None? || contentType.value == "" ==> r == DefaultContentType
  {
    if contentType.Some? && contentType.value != "" then contentType.value else DefaultContentType
  }

  /** A stored blob: its bytes and the content type it was uploaded with. */
  datatype Blob = Blob(content: Bytes, contentType: string)

  class BlobContainer {
    const account: string
    const name: string
    var blobs: map<string, Blob>

    constructor (account: string, name: string, blobs: map<string, Blob>)
      ensures this.account == account && this.name == name && this.blobs == blobs
    {
      this.account := account;
      this.name := name;
      this.blobs := blobs;
    }

    /** `upload_resume_to_azure`: the blob is written (replacing any blob
        of the same name) and its URL returned; an SDK failure is raised as
        a RuntimeError and nothing is written. */
    method UploadResumeToAzure(uid: string, candidateId: string, filename: string, content: Bytes,
                               contentType: Option<string>, fault: Option<string>)
      returns (r: Result<string, string>)
      modifies this
      ensures fault.None? ==>
        && r == Ok(BlobUrl(account, name, BlobName(uid, candidateId, filename)))
        && blobs == old(blobs)[BlobName(uid, candidateId, filename) := Blob(content, ContentTypeOrDefault(contentType))]
      ensures fault.Some? ==>
        r == Err("Failed to upload resume to Azure: " + fault.value) && blobs == old(blobs)
    {
      if fault.Some? {
        return Err("Failed to upload resume to Azure: " + fault.value);
      }
      var blobName := BlobName(uid, candidateId, filename);
      blobs := blobs[blobName := Blob(content, ContentTypeOrDefault(contentType))];
      r := Ok(BlobUrl(account, name, blobName));
    }

    /** `delete_resume_from_azure`: a missing blob and any other SDK failure
        are both raised as a RuntimeError, and nothing changes. */
    method DeleteResumeFromAzure(blobPath: string, fault: Option<string>) returns (r: Outcome<string>)
      modifies this
      ensures blobPath !in old(blobs) ==> r == Fail("Blob not found: " + blobPath) && blobs == old(blobs)
      ensures blobPath in old(blobs) && fault.Some? ==>
        r == Fail("Failed to delete blob: " + fault.value) && blobs == old(blobs)
      ensures blobPath in old(blobs) && fault.None? ==> r == Pass && blobs == old(blobs) - {blobPath}
    {
      if blobPath !in blobs {
        return Fail("Blob not found: " + blobPath);
      }
      if fault.Some? {
        return Fail("Failed to delete blob: " + fault.value);
      }
      blobs := blobs - {blobPath};
      r := Pass;
    }
  }

  /** Index of the first character of `s` that is in `stops`, or `|s|`. */
  function IndexOfAny(s: string, stops: set<char>): (i: nat)
    ensures i <= |s|
    ensures forall k :: 0 <= k < i ==> s[k] !in stops
    ensures i < |s| ==> s[i] in stops
  {
    if s == [] || s[0] in stops then 0 else 1 + IndexOfAny(s[1..], stops)
  }

  /** Index of the last occurrence of `c` in `s`, or 0 when there is none. */
  function LastIndexOf(s: string, c: char): (i: nat)
    ensures c in s ==> i < |s| && s[i] == c && c !in s[i + 1..]
  {
    if s == [] then 0
    else if s[|s| - 1] == c then |s| - 1
    else
      assert s == s[..|s| - 1] + [s[|s| - 1]];
      LastIndexOf(s[..|s| - 1], c)
  }

  /** urlparse's `;params` split: a ';' after the last '/' ends the path. */
  function CutParams(path: string): string
  {
    var start := if '/' in path then LastIndexOf(path, '/') else 0;
    path[..start + IndexOfAny(path[start..], {';'})]
  }

  /** `urlparse(url).path` for an http(s) URL or a scheme-less string: after
      the host comes the path, up to the query or fragment, less any
      `;params`. */
  function UrlPath(url: string): string
  {
    var afterNetloc :=
      if StartsWith(url, "https://") then
        var rest := url[8..]; rest[IndexOfAny(rest, {'/', '?', '#'})..]
      else if StartsWith(url, "http://") then
        var rest := url[7..]; rest[IndexOfAny(rest, {'/', '?', '#'})..]
      else url;
    CutParams(afterNetloc[..IndexOfAny(afterNetloc, {'?', '#'})])
  }

  lemma {:induction false} IndexOfAnyAfter(x: string, y: string, stops: set<char>)
    requires forall k :: 0 <= k < |x| ==> x[k] !in stops
    ensures IndexOfAny(x + y, stops) == |x| + IndexOfAny(y, stops)
  {
    if x != [] {
      assert (x + y)[0] == x[0];
      assert (x + y)[1..] == x[1..] + y;
      IndexOfAnyAfter(x[1..], y, stops);
    } else {
      assert x + y == y;
    }
  }

  lemma CutParamsNoParams(path: string)
    requires forall k :: 0 <= k < |path| ==> path[k] != ';'
    ensures CutParams(path) == path
  {
    var start := if '/' in path then LastIndexOf(path, '/') else 0;
    assert IndexOfAny(path[start..], {';'}) == |path| - start;
  }

  /** The path of an https URL whose host is followed by a path with no
      query, fragment or parameters. */
  lemma HttpsUrlPath(url: string, host: string, path: string)
    requires url == "https://" + host + path
    requires forall k :: 0 <= k < |host| ==> host[k] !in {'/', '?', '#'}
    requires path != [] && path[0] == '/'
    requires forall k :: 0 <= k < |path| ==> path[k] !in {'?', '#', ';'}
    ensures UrlPath(url) == path
  {
    assert StartsWith(url, "https://");
    assert url[8..] == host + path;
    IndexOfAnyAfter(host, path, {'/', '?', '#'});
    assert IndexOfAny(path, {'/', '?', '#'}) == 0;
    assert (host + path)[|host|..] == path;
    assert IndexOfAny(path, {'?', '#'}) == |path|;
    assert path[..|path|] == path;
    CutParamsNoParams(path);
  }

  lemma HostSuffixPlain()
    ensures forall k :: 0 <= k < |HostSuffix| ==> HostSuffix[k] !in {'/', '?', '#'}
  {
  }

  /** The path of a blob URL is "/<container>/<blob name>", provided the
      names hold none of the characters urlparse treats specially. */
  lemma BlobUrlPath(account: string, container: string, blobName: string)
    requires forall k :: 0 <= k < |account| ==> account[k] !in {'/', '?', '#'}
    requires forall k :: 0 <= k < |container| ==> container[k] !in {'?', '#', ';'}
    requires forall k :: 0 <= k < |blobName| ==> blobName[k] !in {'?', '#', ';'}
    ensures UrlPath(BlobUrl(account, container, blobName)) == "/" + container + "/" + blobName
  {
    var host := account + HostSuffix;
    var path := "/" + container + "/" + blobName;
    HostSuffixPlain();
    assert forall k :: 0 <= k < |host| ==> host[k] !in {'/', '?', '#'} by {
      forall k | 0 <= k < |host| ensures host[k] !in {'/', '?', '#'} {
        if k >= |account| { assert host[k] == HostSuffix[k - |account|]; }
      }
    }
    assert forall k :: 0 <= k < |path| ==> path[k] !in {'?', '#', ';'} by {
      forall k | 0 <= k < |path| ensures path[k] !in {'?', '#', ';'} {
        if 1 <= k < 1 + |container| { assert path[k] == container[k - 1]; }
        else if k >= |container| + 2 { assert path[k] == blobName[k - |container| - 2]; }
      }
    }
    assert BlobUrl(account, container, blobName) == "https://" + host + path;
    HttpsUrlPath(BlobUrl(account, container, blobName), host, path);
  }

  /** The characters `lstrip` removes in the delete handlers: those of
      "/<container>/", as a set. */
  function ContainerPrefixChars(container: string): set<char>
  {
    CharsOf("/" + container + "/")
  }

  /** `urlparse(url).path.lstrip(f"/{container}/")`: the blob path the
      delete handlers pass to Azure. */
  function BlobPathOf(url: string, container: string): string
  {
    LStripChars(UrlPath(url), ContainerPrefixChars(container))
  }

  lemma {:induction false} LStripCharsShorter(s: string, chars: set<char>)
    ensures |LStripChars(s, chars)| <= |s|
  {
    if s != [] && s[0] in chars {
      LStripCharsShorter(s[1..], chars);
    }
  }

  /** Stripping the container's characters from "/<container>/<name>"
      gives back the name exactly when the name is empty or does not start
      with one of those characters: `lstrip` removes a character set, not
      a prefix. */
  lemma StripRecoversNameIff(container: string, name: string)
    ensures LStripChars("/" + container + "/" + name, ContainerPrefixChars(container)) == name
      <==> name == [] || name[0] !in ContainerPrefixChars(container)
  {
    var prefix := "/" + container + "/";
    var chars := ContainerPrefixChars(container);
    assert forall k :: 0 <= k < |prefix| ==> prefix[k] in chars;
    assert "/" + container + "/" + name == prefix + name;
    LStripCharsPrefix(prefix, name, chars);
    if name != [] && name[0] in chars {
      LStripCharsShorter(name[1..], chars);
    }
  }

  /** The path a delete handler computes from an uploaded file's URL is the
      uploaded blob's name exactly when the uid is non-empty and does not
      start with a character of "/<container>/". */
  lemma DeletePathMatchesUpload(account: string, container: string, uid: string, candidateId: string, filename: string)
    requires forall k :: 0 <= k < |account| ==> account[k] !in {'/', '?', '#'}
    requires forall k :: 0 <= k < |container| ==> container[k] !in {'?', '#', ';'}
    requires forall k :: 0 <= k < |BlobName(uid, candidateId, filename)| ==>
      BlobName(uid, candidateId, filename)[k] !in {'?', '#', ';'}
    ensures BlobPathOf(BlobUrl(account, container, BlobName(uid, candidateId, filename)), container)
              == BlobName(uid, candidateId, filename)
      <==> uid != [] && uid[0] !in ContainerPrefixChars(container)
  {
    var name := BlobName(uid, candidateId, filename);
    BlobUrlPath(account, container, name);
    StripRecoversNameIff(container, name);
    assert uid == [] ==> name[0] == '/';
    assert uid != [] ==> name[0] == uid[0];
    assert '/' in ContainerPrefixChars(container) by {
      assert ("/" + container + "/")[0] == '/';
    }
  }

  lemma BlobNameCons(uid: string, candidateId: string, filename: string)
    requires uid != []
    ensures BlobName(uid, candidateId, filename) == [uid[0]] + BlobName(uid[1..], candidateId, filename)
  {
    assert uid == [uid[0]] + uid[1..];
  }

  /** When the name starts with a character of the container name,
      stripping removes that character as well. */
  lemma StripDropsHead(container: string, name: string)
    requires |name| >= 2 && name[0] in container && name[1] !in ContainerPrefixChars(container)
    ensures LStripChars("/" + container + "/" + name, ContainerPrefixChars(container)) == name[1..]
  {
    var chars := ContainerPrefixChars(container);
    var lead := "/" + container + "/" + [name[0]];
    assert forall k :: 0 <= k < |lead| ==> lead[k] in chars by {
      forall k | 0 <= k < |lead| ensures lead[k] in chars {
        if k < |lead| - 1 { assert lead[k] == ("/" + container + "/")[k]; }
      }
    }
    assert name == [name[0]] + name[1..];
    assert "/" + container + "/" + name == lead + name[1..];
    LStripCharsPrefix(lead, name[1..], chars);
  }

  /** How the path goes wrong: when the uid starts with a character of the
      container name, that character is stripped too, and the delete
      handler names a blob that was never uploaded (for a container named
      "resumes", uid "s1" gives "1/<candidate>/<file>"). */
  lemma DeletePathDropsUidHead(account: string, container: string, uid: string, candidateId: string, filename: string)
    requires forall k :: 0 <= k < |account| ==> account[k] !in {'/', '?', '#'}
    requires forall k :: 0 <= k < |container| ==> container[k] !in {'?', '#', ';'}
    requires forall k :: 0 <= k < |BlobName(uid, candidateId, filename)| ==>
      BlobName(uid, candidateId, filename)[k] !in {'?', '#', ';'}
    requires |uid| >= 2 && uid[0] in container && uid[1] !in ContainerPrefixChars(container)
    ensures BlobPathOf(BlobUrl(account, container, BlobName(uid, candidateId, filename)), container)
              == BlobName(uid[1..], candidateId, filename)
  {
    var name := BlobName(uid, candidateId, filename);
    BlobUrlPath(account, container, name);
    BlobNameCons(uid, candidateId, filename);
    assert name[1] == uid[1];
    StripDropsHead(container, name);
  }
}
