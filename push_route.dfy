/**
 * The push route (`POST /api/github/push`): it checks the Bearer header,
 * splits `repo_name` into owner and repository, looks up the current file
 * to learn its `sha`, and creates or updates the file with Base64 content.
 *
 * The request body is the input `body` (`Malformed` when it is not JSON);
 * the two GitHub calls are inputs too: `lookup` is the `sha` the content
 * lookup returns (`None` when it fails) and `writeError` the message of a
 * failed write (`None` when it succeeds).
 */
module PushRoute {
  import opened Wrappers
  import opened Text
  import Utf8
  import Base64

  datatype Json<T> = Parsed(value: T) | Malformed(message: string)

  /** The fields of the request body; `None` for a missing one. */
  datatype PushBody = PushBody(repoName: Option<string>, content: Option<string>, path: Option<string>, message: Option<string>)

  /** The file write sent to GitHub. */
  datatype FileWrite = FileWrite(
    token: string,
    owner: string,
    repo: string,
    path: Option<string>,
    message: string,
    content: string,
    sha: Option<string>,
    committerName: string,
    committerEmail: string)

  datatype Response = Response(status: nat, error: Option<string>, message: Option<string>)

  const BearerPrefix := "Bearer "
  const DefaultMessage := "Update Discord bot code"
  const CommitterName := "Discord Bot Creator"
  const CommitterEmail := "bot@discord-creator.com"
  const FailurePrefix := "Failed to push to GitHub: "

  const MissingAuthentication := Response(401, Some("Missing authentication"), None)
  const InvalidRepositoryName := Response(400, Some("Invalid repository name"), None)
  const Pushed := Response(200, None, Some("Code pushed to GitHub successfully"))

  /** The message of the `TypeError` that `repo_name.split` throws on a missing name. */
  const SplitOfUndefined := "Cannot read properties of undefined (reading 'split')"

  /** The message of the `TypeError` that `Buffer.from(undefined)` throws. */
  const BufferOfUndefined :=
    "The first argument must be of type string or an instance of Buffer, ArrayBuffer, or Array or an Array-like Object. Received undefined"

  /**
   * `authHeader?.startsWith('Bearer ')`, then `authHeader.replace('Bearer ', '')`:
   * the token, or `None` when the header is missing or has another scheme.
   */
  function BearerToken(header: Option<string>): (r: Option<string>)
    ensures r.Some? <==> header.Some? && BearerPrefix <= header.value
  {
    if header.Some? && BearerPrefix <= header.value then Some(ReplaceFirst(header.value, BearerPrefix, "")) else None
  }

  /** The token is the header with its leading `"Bearer "` removed. */
  lemma BearerTokenStrips(header: string)
    requires BearerPrefix <= header
    ensures BearerToken(Some(header)) == Some(header[|BearerPrefix|..])
  {
    assert IndexOf(header, BearerPrefix) == Some(0);
    assert header[..0] + "" + header[|BearerPrefix|..] == header[|BearerPrefix|..];
  }

  /** A header built as `Bearer ${token}` gives the token back. */
  lemma BearerTokenRoundTrip(token: string)
    ensures BearerToken(Some(BearerPrefix + token)) == Some(token)
  {
    var h := BearerPrefix + token;
    assert h[..|BearerPrefix|] == BearerPrefix;
    BearerTokenStrips(h);
    assert h[|BearerPrefix|..] == token;
  }

  /**
   * `const [owner, repo] = repo_name.split('/')` and the check that both are
   * truthy; a missing second segment is `undefined`.
   */
  function OwnerRepo(name: string): (r: Option<(string, string)>)
    ensures r.Some? ==> r.value.0 != [] && r.value.1 != []
  {
    var parts := Split(name, '/');
    if parts[0] != [] && |parts| >= 2 && parts[1] != [] then Some((parts[0], parts[1])) else None
  }

  /**
   * Owner and repository are the first two `/`-segments; whatever follows a
   * third `/` is ignored.
   */
  lemma OwnerRepoOfJoin(owner: string, repo: string, rest: seq<string>)
    requires owner != [] && repo != []
    requires '/' !in owner && '/' !in repo
    requires forall k :: 0 <= k < |rest| ==> '/' !in rest[k]
    ensures OwnerRepo(Join([owner, repo] + rest, '/')) == Some((owner, repo))
  {
    var parts := [owner, repo] + rest;
    forall k | 0 <= k < |parts|
      ensures '/' !in parts[k]
    {
      if k >= 2 { assert parts[k] == rest[k - 2]; }
    }
    SplitJoin(parts, '/');
  }

  /** A name that passes is an owner, a `/`, a repository and possibly more. */
  lemma OwnerRepoShape(name: string)
    requires OwnerRepo(name).Some?
    ensures var (owner, repo) := OwnerRepo(name).value;
      owner + "/" + repo <= name && '/' !in owner && '/' !in repo
  {
    var parts := Split(name, '/');
    JoinSplit(name, '/');
    SplitPiecesFree(name, '/');
    assert Join(parts, '/') == parts[0] + ['/'] + Join(parts[1..], '/');
    var tail := parts[1..];
    if |tail| > 1 {
      assert Join(tail, '/') == tail[0] + ['/'] + Join(tail[1..], '/');
    }
    assert tail[0] <= Join(tail, '/');
  }

  /** The three malformed shapes: no slash, an empty owner, an empty repository. */
  lemma OwnerRepoRejects(x: string)
    requires x != [] && '/' !in x
    ensures OwnerRepo(x).None?
    ensures OwnerRepo("/" + x).None?
    ensures OwnerRepo(x + "/").None?
  {
    SplitFree(x, '/');
    OwnerRepoOfSplit([[], x]);
    assert Join([[], x], '/') == "/" + x;
    OwnerRepoOfSplit([x, []]);
    assert Join([x, []], '/') == x + "/";
  }

  lemma OwnerRepoOfSplit(parts: seq<string>)
    requires |parts| == 2 && '/' !in parts[0] && '/' !in parts[1]
    requires parts[0] == [] || parts[1] == []
    ensures OwnerRepo(Join(parts, '/')).None?
  {
    SplitJoin(parts, '/');
  }

  /** `message || 'Update Discord bot code'`. */
  function CommitMessage(message: Option<string>): (r: string)
    ensures Truthy(message) ==> r == message.value
    ensures r != []
  {
    if Truthy(message) then message.value else DefaultMessage
  }

  /** `Buffer.from(content).toString('base64')`. */
  function EncodedContent(content: string): (r: string)
    ensures |r| == (|Utf8.Encode(content)| + 2) / 3 * 4
  {
    Base64.Encode(Utf8.Encode(content))
  }

  /** The uploaded content decodes back to the UTF-8 bytes of the content, and then to the content. */
  lemma EncodedContentRoundTrip(content: string)
    ensures Base64.Decode(EncodedContent(content)) == Some(Utf8.Encode(content))
    ensures Utf8.Decode(Base64.Decode(EncodedContent(content)).value) == Some(content)
  {
    Base64.DecodeEncode(Utf8.Encode(content));
    Utf8.DecodeEncode(content);
  }

  /**
   * `POST`: the response, the content lookup made (owner, repository,
   * path) and the file write made, if any.
   */
  method Post(authHeader: Option<string>, body: Json<PushBody>, lookup: Option<string>, writeError: Option<string>)
    returns (resp: Response, looked: Option<(string, string, Option<string>)>, write: Option<FileWrite>)
    ensures BearerToken(authHeader).None? ==> resp == MissingAuthentication && looked.None? && write.None?
    ensures BearerToken(authHeader).Some? && body.Malformed? ==>
      resp == Response(500, Some(FailurePrefix + body.message), None) && write.None?
    ensures BearerToken(authHeader).Some? && body.Parsed? && body.value.repoName.None? ==>
      resp == Response(500, Some(FailurePrefix + SplitOfUndefined), None) && write.None?
    ensures (BearerToken(authHeader).Some? && body.Parsed? && body.value.repoName.Some?
      && OwnerRepo(body.value.repoName.value).None?) ==>
      resp == InvalidRepositoryName && looked.None? && write.None?
    ensures looked.Some? <==> (BearerToken(authHeader).Some? && body.Parsed? && body.value.repoName.Some?
      && OwnerRepo(body.value.repoName.value).Some?)
    ensures looked.Some? ==> looked.value == (OwnerRepo(body.value.repoName.value).value.0,
      OwnerRepo(body.value.repoName.value).value.1, body.value.path)
    ensures looked.Some? && body.value.content.None? ==>
      resp == Response(500, Some(FailurePrefix + BufferOfUndefined), None) && write.None?
    ensures write.Some? <==> looked.Some? && body.value.content.Some?
    ensures write.Some? ==> write.value == FileWrite(BearerToken(authHeader).value,
      looked.value.0, looked.value.1, body.value.path, CommitMessage(body.value.message),
      EncodedContent(body.value.content.value), lookup, CommitterName, CommitterEmail)
    ensures write.Some? ==> resp == if writeError.Some? then Response(500, Some(FailurePrefix + writeError.value), None) else Pushed
  {
    looked, write := None, None;
    var token := BearerToken(authHeader);
    if token.None? {
      return MissingAuthentication, None, None;
    }
    if body.Malformed? {
      return Response(500, Some(FailurePrefix + body.message), None), None, None;
    }
    var fields := body.value;
    if fields.repoName.None? {
      return Response(500, Some(FailurePrefix + SplitOfUndefined), None), None, None;
    }
    var names := OwnerRepo(fields.repoName.value);
    if names.None? {
      return InvalidRepositoryName, None, None;
    }
    var (owner, repo) := names.value;
    looked := Some((owner, repo, fields.path));
    var sha := lookup;
    if fields.content.None? {
      return Response(500, Some(FailurePrefix + BufferOfUndefined), None), looked, None;
    }
    write := Some(FileWrite(token.value, owner, repo, fields.path, CommitMessage(fields.message),
      EncodedContent(fields.content.value), sha, CommitterName, CommitterEmail));
    if writeError.Some? {
      return Response(500, Some(FailurePrefix + writeError.value), None), looked, write;
    }
    resp := Pushed;
  }
}
