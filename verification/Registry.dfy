/** `AraBucket.getOrCreate` and `SingletonKey.getOrCreate`: buckets and keys looked up, or created, in a tree of stacks. */
module Registry {
  import opened Basics

  type Stack = string

  /** Where a construct stands: its stack and its id in that stack. */
  type Path = (Stack, string)

  datatype Encryption = S3Managed | KmsManaged | Kms

  datatype Construct =
    | Bucket(path: Path, physicalName: Option<string>, encryption: Encryption, key: Option<Construct>,
             logsPrefix: Option<string>, logsBucket: Option<Construct>)
    | Key(path: Path)

  datatype Props = Props(bucketName: string, serverAccessLogsPrefix: Option<string>,
                         serverAccessLogsBucket: Option<Construct>,
                         encryption: Option<Encryption>, encryptionKey: Option<Construct>)

  datatype Failure = DuplicateId(path: Path)

  /** `parent` gives the nested-stack parent of the nested stacks. */
  type Parents = map<Stack, Stack>

  type Children = map<Path, Construct>

  const LOGS := "s3-access-logs"
  const DEFAULT_KEY := "DefaultKmsKey"

  const LOGS_PROPS := Props(LOGS, None, None, Some(S3Managed), None)

  /** An empty prefix is falsy. */
  predicate WantsLogs(props: Props) {
    props.serverAccessLogsPrefix.Some? && props.serverAccessLogsPrefix.value != ""
  }

  predicate NeedsKey(props: Props) {
    props.encryption == Some(Kms)
  }

  /** The stack's own child, or else the child of the stack that it is nested in. */
  function Find(up: Parents, ch: Children, s: Stack, id: string): Option<Construct> {
    if (s, id) in ch then Some(ch[(s, id)])
    else if s in up && (up[s], id) in ch then Some(ch[(up[s], id)])
    else None
  }

  function KeyGetOrCreate(up: Parents, ch: Children, s: Stack, id: string): (Children, Construct) {
    var found := Find(up, ch, s, id);
    if found.Some? then (ch, found.value) else (ch[(s, id) := Key((s, id))], Key((s, id)))
  }

  function PhysicalName(name: string): Option<string> {
    if name == LOGS then None else Some(name + "-ACCOUNT-REGION")
  }

  function GetOrCreate(up: Parents, ch: Children, s: Stack, props: Props): (Children, Result<Construct, Failure>)
    decreases if WantsLogs(props) then 1 else 0, 0, 2
  {
    var found := Find(up, ch, s, props.bucketName);
    if found.Some? then (ch, Ok(found.value)) else New(up, ch, s, props)
  }

  /** The log bucket that a bucket with these properties uses. */
  function LogTarget(up: Parents, ch: Children, s: Stack, props: Props): (Children, Result<Option<Construct>, Failure>)
    decreases if WantsLogs(props) then 1 else 0, 0, 0
  {
    if !WantsLogs(props) then (ch, Ok(None))
    else if props.serverAccessLogsBucket.Some? then (ch, Ok(props.serverAccessLogsBucket))
    else
      var (ch', r) := GetOrCreate(up, ch, s, LOGS_PROPS);
      (ch', if r.Ok? then Ok(Some(r.value)) else Err(r.error))
  }

  /** The customer managed key, when the encryption needs one. */
  function EncryptionKey(up: Parents, ch: Children, s: Stack, props: Props): (Children, Option<Construct>) {
    if !NeedsKey(props) then (ch, None)
    else if props.encryptionKey.Some? then (ch, props.encryptionKey)
    else
      var (ch', k) := KeyGetOrCreate(up, ch, s, DEFAULT_KEY);
      (ch', Some(k))
  }

  function BucketOf(s: Stack, props: Props, key: Option<Construct>, logs: Option<Construct>): Construct {
    Bucket((s, props.bucketName), PhysicalName(props.bucketName),
           if props.encryption.Some? then props.encryption.value else KmsManaged,
           key, props.serverAccessLogsPrefix, logs)
  }

  /** The private constructor. `super` refuses an id that the stack already has. */
  function New(up: Parents, ch: Children, s: Stack, props: Props): (Children, Result<Construct, Failure>)
    decreases if WantsLogs(props) then 1 else 0, 0, 1
  {
    var (ch1, logs) := LogTarget(up, ch, s, props);
    if logs.Err? then (ch1, Err(logs.error)) else
    var (ch2, key) := EncryptionKey(up, ch1, s, props);
    var path := (s, props.bucketName);
    if path in ch2 then (ch2, Err(DuplicateId(path))) else
    var b := BucketOf(s, props, key, logs.value);
    (ch2[path := b], Ok(b))
  }

  /** The app's construct tree, to which requests add. */
  class App {
    const parents: Parents
    var children: Children

    constructor (parents: Parents)
      ensures this.parents == parents && children == map[]
    {
      this.parents := parents;
      children := map[];
    }

    method SingletonKey(s: Stack, keyName: string) returns (k: Construct)
      modifies this
      ensures (children, k) == KeyGetOrCreate(parents, old(children), s, keyName)
    {
      var found := Find(parents, children, s, keyName);
      if found.Some? {
        return found.value;
      }
      k := Key((s, keyName));
      children := children[(s, keyName) := k];
    }

    method BucketGetOrCreate(s: Stack, props: Props) returns (r: Result<Construct, Failure>)
      modifies this
      ensures (children, r) == GetOrCreate(parents, old(children), s, props)
      decreases if WantsLogs(props) then 1 else 0, 1
    {
      var found := Find(parents, children, s, props.bucketName);
      if found.Some? {
        return Ok(found.value);
      }
      r := NewBucket(s, props);
    }

    method NewBucket(s: Stack, props: Props) returns (r: Result<Construct, Failure>)
      modifies this
      ensures (children, r) == New(parents, old(children), s, props)
      decreases if WantsLogs(props) then 1 else 0, 0
    {
      var logs := None;
      if WantsLogs(props) {
        if props.serverAccessLogsBucket.Some? {
          logs := props.serverAccessLogsBucket;
        } else {
          var l := BucketGetOrCreate(s, LOGS_PROPS);
          if l.Err? {
            return Err(l.error);
          }
          logs := Some(l.value);
        }
      }
      var key := None;
      if NeedsKey(props) {
        if props.encryptionKey.Some? {
          key := props.encryptionKey;
        } else {
          var k := SingletonKey(s, DEFAULT_KEY);
          key := Some(k);
        }
      }
      var path := (s, props.bucketName);
      if path in children {
        return Err(DuplicateId(path));
      }
      var b := BucketOf(s, props, key, logs);
      children := children[path := b];
      r := Ok(b);
    }
  }

  // ---------- Stability ----------

  /** Every lookup that was answered is answered the same. */
  ghost predicate Extends(up: Parents, ch: Children, ch': Children) {
    && (forall p | p in ch :: p in ch' && ch'[p] == ch[p])
    && (forall s, id {:trigger Find(up, ch, s, id)} :: Find(up, ch, s, id).Some? ==> Find(up, ch', s, id) == Find(up, ch, s, id))
  }

  lemma AddExtends(up: Parents, ch: Children, s: Stack, id: string, c: Construct)
    requires Find(up, ch, s, id).None?
    ensures Extends(up, ch, ch[(s, id) := c])
  {
  }

  lemma ExtendsTrans(up: Parents, a: Children, b: Children, c: Children)
    requires Extends(up, a, b) && Extends(up, b, c)
    ensures Extends(up, a, c)
  {
  }

  /** The names that the construction of a bucket takes for itself. */
  predicate Clashes(props: Props) {
    || (props.bucketName == LOGS && WantsLogs(props) && props.serverAccessLogsBucket.None?)
    || (props.bucketName == DEFAULT_KEY && NeedsKey(props) && props.encryptionKey.None?)
  }

  /** From ch to ch' at most the given path was added, and only because a lookup of it failed. */
  ghost predicate AddsOnly(up: Parents, ch: Children, ch': Children, s: Stack, id: string) {
    && Extends(up, ch, ch')
    && (forall p | p in ch' && p !in ch :: p == (s, id))
    && (if Find(up, ch, s, id).Some? then ch' == ch else (s, id) in ch')
  }

  lemma LogsRequest(up: Parents, ch: Children, s: Stack)
    ensures var (ch', r) := GetOrCreate(up, ch, s, LOGS_PROPS);
            r.Ok? && AddsOnly(up, ch, ch', s, LOGS) && Find(up, ch', s, LOGS) == Some(r.value)
  {
  }

  lemma LogTargetIs(up: Parents, ch: Children, s: Stack, props: Props)
    ensures var (ch', r) := LogTarget(up, ch, s, props);
            && r.Ok?
            && if WantsLogs(props) && props.serverAccessLogsBucket.None? then AddsOnly(up, ch, ch', s, LOGS) else ch' == ch
  {
  }

  lemma EncryptionKeyIs(up: Parents, ch: Children, s: Stack, props: Props)
    ensures var (ch', k) := EncryptionKey(up, ch, s, props);
            if NeedsKey(props) && props.encryptionKey.None? then AddsOnly(up, ch, ch', s, DEFAULT_KEY) else ch' == ch
  {
  }

  /** The tree in which `super` registers a missing bucket. */
  function Prepared(up: Parents, ch: Children, s: Stack, props: Props): Children {
    EncryptionKey(up, LogTarget(up, ch, s, props).0, s, props).0
  }

  lemma NewIs(up: Parents, ch: Children, s: Stack, props: Props)
    ensures var (ready, path) := (Prepared(up, ch, s, props), (s, props.bucketName));
            var (ch1, logs) := LogTarget(up, ch, s, props);
            && logs.Ok?
            && New(up, ch, s, props) ==
               if path in ready then (ready, Err(DuplicateId(path)))
               else
                 var b := BucketOf(s, props, EncryptionKey(up, ch1, s, props).1, logs.value);
                 (ready[path := b], Ok(b))
  {
  }

  lemma PreparedIs(up: Parents, ch: Children, s: Stack, props: Props)
    requires Find(up, ch, s, props.bucketName).None?
    ensures Extends(up, ch, Prepared(up, ch, s, props))
    ensures (s, props.bucketName) in Prepared(up, ch, s, props) <==> Clashes(props)
    ensures (s, props.bucketName) !in Prepared(up, ch, s, props) ==>
              Find(up, Prepared(up, ch, s, props), s, props.bucketName).None?
  {
    var ch1 := LogTarget(up, ch, s, props).0;
    LogTargetIs(up, ch, s, props);
    EncryptionKeyIs(up, ch1, s, props);
    ExtendsTrans(up, ch, ch1, Prepared(up, ch, s, props));
  }

  /** One request, for every tree and all properties: it keeps every earlier answer, it fails exactly when
      the bucket is missing and its name is one that its own construction takes, and an answered name is
      found again. */
  lemma OneRequest(up: Parents, ch: Children, s: Stack, props: Props)
    ensures var (ch', r) := GetOrCreate(up, ch, s, props);
            && Extends(up, ch, ch')
            && (r.Err? <==> Find(up, ch, s, props.bucketName).None? && Clashes(props))
            && (r.Ok? ==> Find(up, ch', s, props.bucketName) == Some(r.value))
  {
    if Find(up, ch, s, props.bucketName).None? {
      var (ch', r) := GetOrCreate(up, ch, s, props);
      var ready := Prepared(up, ch, s, props);
      NewIs(up, ch, s, props);
      PreparedIs(up, ch, s, props);
      if !Clashes(props) {
        AddExtends(up, ready, s, props.bucketName, r.value);
        ExtendsTrans(up, ch, ready, ch');
      }
    }
  }

  // ---------- Who is asked first ----------

  /** Neither the stack nor the stack that it is nested in has this id. */
  predicate Absent(up: Parents, ch: Children, s: Stack, id: string) {
    (s, id) !in ch && (s in up ==> (up[s], id) !in ch)
  }

  /** The stack's own bucket of the name; else that of the stack that it is nested in; else a new one in the
      stack itself. The first two change nothing. */
  lemma BucketLookup(up: Parents, ch: Children, s: Stack, props: Props)
    ensures var ((ch', r), name) := (GetOrCreate(up, ch, s, props), props.bucketName);
            && ((s, name) in ch ==> ch' == ch && r == Ok(ch[(s, name)]))
            && ((s, name) !in ch && s in up && (up[s], name) in ch ==> ch' == ch && r == Ok(ch[(up[s], name)]))
            && (Absent(up, ch, s, name) && r.Ok? ==>
                  r.value.Bucket? && r.value.path == (s, name) && (s, name) in ch' && ch'[(s, name)] == r.value)
  {
    if Absent(up, ch, s, props.bucketName) {
      NewIs(up, ch, s, props);
    }
  }

  /** The same for the key. */
  lemma KeyLookup(up: Parents, ch: Children, s: Stack, id: string)
    ensures var (ch', k) := KeyGetOrCreate(up, ch, s, id);
            && ((s, id) in ch ==> ch' == ch && k == ch[(s, id)])
            && ((s, id) !in ch && s in up && (up[s], id) in ch ==> ch' == ch && k == ch[(up[s], id)])
            && (Absent(up, ch, s, id) ==> k == Key((s, id)) && ch' == ch[(s, id) := k])
  {
  }

  /** What a bucket that is created looks like: named after its id except for the log bucket, encrypted as asked
      for or else by the managed key, logging to the bucket that was given or to the access-log bucket iff a
      prefix that is not empty was given. */
  lemma CreatedBucketIs(up: Parents, ch: Children, s: Stack, props: Props)
    requires Absent(up, ch, s, props.bucketName) && !Clashes(props)
    ensures var r := GetOrCreate(up, ch, s, props).1;
            && r.Ok? && r.value.Bucket? && r.value.path == (s, props.bucketName)
            && r.value.physicalName == (if props.bucketName == "s3-access-logs" then None
                                        else Some(props.bucketName + "-ACCOUNT-REGION"))
            && r.value.encryption == (if props.encryption.Some? then props.encryption.value else KmsManaged)
            && r.value.logsPrefix == props.serverAccessLogsPrefix
            && (if props.serverAccessLogsPrefix.None? || props.serverAccessLogsPrefix == Some("") then r.value.logsBucket.None?
                else if props.serverAccessLogsBucket.Some? then r.value.logsBucket == props.serverAccessLogsBucket
                else r.value.logsBucket.Some?)
  {
    NewIs(up, ch, s, props);
    PreparedIs(up, ch, s, props);
    LogTargetIs(up, ch, s, props);
  }

  /** The access-log bucket, when a bucket's log prefix is the first to need it. */
  lemma LogBucketIs(up: Parents, ch: Children, s: Stack, props: Props)
    requires Absent(up, ch, s, props.bucketName) && !Clashes(props) && Absent(up, ch, s, "s3-access-logs")
    requires WantsLogs(props) && props.serverAccessLogsBucket.None?
    ensures var r := GetOrCreate(up, ch, s, props).1;
            r.Ok? && r.value.Bucket? && r.value.logsBucket == Some(Bucket((s, "s3-access-logs"), None, S3Managed, None, None, None))
  {
    NewIs(up, ch, s, props);
    PreparedIs(up, ch, s, props);
    assert Prepared(up, ch, s, LOGS_PROPS) == ch;
    NewIs(up, ch, s, LOGS_PROPS);
  }

  /** A bucket that is created is encrypted with a customer managed key iff KMS encryption is asked for: the
      key that was given, or the one that the stack finds under the default key's name ever after. */
  lemma CreatedWithKey(up: Parents, ch: Children, s: Stack, props: Props)
    requires Find(up, ch, s, props.bucketName).None? && !Clashes(props)
    ensures var (ch', r) := GetOrCreate(up, ch, s, props);
            && r.Ok? && r.value.Bucket? && ch' == Prepared(up, ch, s, props)[(s, props.bucketName) := r.value]
            && (r.value.key.Some? <==> r.value.encryption == Kms)
            && (r.value.key.Some? ==>
                  r.value.key == if props.encryptionKey.Some? then props.encryptionKey else Find(up, ch', s, "DefaultKmsKey"))
  {
    NewIs(up, ch, s, props);
    PreparedIs(up, ch, s, props);
    var ready, ch' := Prepared(up, ch, s, props), GetOrCreate(up, ch, s, props).0;
    AddExtends(up, ready, s, props.bucketName, GetOrCreate(up, ch, s, props).1.value);
    assert Extends(up, ready, ch');
  }

  /** Two buckets with a physical name have the same one only if they have the same id; the log bucket has none. */
  lemma PhysicalNamesDiffer(a: string, b: string)
    requires PhysicalName(a) == PhysicalName(b)
    ensures a == b && (PhysicalName(a).None? <==> a == LOGS)
  {
    if a != LOGS {
      var suffix := "-ACCOUNT-REGION";
      assert a == (a + suffix)[..|a + suffix| - |suffix|];
      assert b == (b + suffix)[..|b + suffix| - |suffix|];
    }
  }

  datatype Request = Request(stack: Stack, props: Props)

  /** The tree after a series of requests; a failed request throws but what it added stays. */
  function Tree(up: Parents, rs: seq<Request>): Children {
    if rs == [] then map[] else
      GetOrCreate(up, Tree(up, rs[..|rs| - 1]), rs[|rs| - 1].stack, rs[|rs| - 1].props).0
  }

  /** The answer to the i-th request. */
  function Answer(up: Parents, rs: seq<Request>, i: nat): Result<Construct, Failure>
    requires i < |rs|
  {
    GetOrCreate(up, Tree(up, rs[..i]), rs[i].stack, rs[i].props).1
  }

  lemma {:induction false} TreesExtend(up: Parents, rs: seq<Request>, i: nat)
    requires i <= |rs|
    ensures Extends(up, Tree(up, rs[..i]), Tree(up, rs))
    decreases rs
  {
    if i == |rs| {
      assert rs[..i] == rs;
    } else {
      var front := rs[..|rs| - 1];
      assert front[..i] == rs[..i];
      TreesExtend(up, front, i);
      OneRequest(up, Tree(up, front), rs[|rs| - 1].stack, rs[|rs| - 1].props);
      ExtendsTrans(up, Tree(up, rs[..i]), Tree(up, front), Tree(up, rs));
    }
  }

  /** Over any series of requests from root and nested stacks, a stack that once got a bucket for a name
      gets the same one for it ever after, whatever other properties it asks for. */
  lemma SameBucketEverAfter(up: Parents, rs: seq<Request>, i: nat, j: nat)
    requires i < j < |rs| && rs[i].stack == rs[j].stack && rs[i].props.bucketName == rs[j].props.bucketName
    requires Answer(up, rs, i).Ok?
    ensures Answer(up, rs, j) == Answer(up, rs, i)
  {
    OneRequest(up, Tree(up, rs[..i]), rs[i].stack, rs[i].props);
    assert rs[..i + 1][..i] == rs[..i] && rs[..i + 1][i] == rs[i];
    assert Find(up, Tree(up, rs[..i + 1]), rs[i].stack, rs[i].props.bucketName) == Some(Answer(up, rs, i).value);
    assert rs[..j][..i + 1] == rs[..i + 1];
    TreesExtend(up, rs[..j], i + 1);
  }

  /** Once a stack was answered with a bucket of its own, a nested stack that has none of its own by then gets
      that bucket ever after, whatever other properties it asks for. */
  lemma NestedSharesBucket(up: Parents, rs: seq<Request>, i: nat, j: nat)
    requires i < j < |rs| && rs[j].stack in up && up[rs[j].stack] == rs[i].stack
    requires rs[i].props.bucketName == rs[j].props.bucketName
    requires Answer(up, rs, i).Ok? && Answer(up, rs, i).value.path == (rs[i].stack, rs[i].props.bucketName)
    requires (rs[j].stack, rs[j].props.bucketName) !in Tree(up, rs[..i + 1])
    ensures Answer(up, rs, j) == Answer(up, rs, i)
  {
    var name, b := rs[i].props.bucketName, Answer(up, rs, i).value;
    var after := Tree(up, rs[..i + 1]);
    OneRequest(up, Tree(up, rs[..i]), rs[i].stack, rs[i].props);
    Prefixes(rs, i, i + 1);
    TreesKeepInv(up, rs[..i + 1]);
    assert Find(up, after, rs[i].stack, name) == Some(b);
    assert (rs[i].stack, name) in after && after[(rs[i].stack, name)] == b;
    assert Find(up, after, rs[j].stack, name) == Some(b);
    Prefixes(rs, i + 1, j);
    TreesExtend(up, rs[..j], i + 1);
  }

  // ---------- What the tree holds ----------

  /** Every construct stands at its own path, only the default key is a key, and every bucket with a log
      prefix has a log target that was given or stands elsewhere in the tree. */
  ghost predicate TreeInv(ch: Children) {
    forall p | p in ch :: ch[p].path == p && WellPlaced(ch[p])
  }

  /** The log target of b is in the tree, at another path than b. */
  predicate TargetStands(ch: Children, b: Construct, target: Construct) {
    target.path in ch && ch[target.path] == target && target.path != b.path
  }

  lemma LogsKeepsInv(up: Parents, ch: Children, s: Stack)
    requires TreeInv(ch)
    ensures TreeInv(GetOrCreate(up, ch, s, LOGS_PROPS).0)
  {
  }

  predicate WellPlaced(c: Construct) {
    && (c.Key? ==> c.path.1 == DEFAULT_KEY)
    && (c.Bucket? && c.logsPrefix.Some? && c.logsPrefix.value != "" ==> c.logsBucket.Some?)
  }

  lemma AddKeepsInv(ch: Children, c: Construct)
    requires TreeInv(ch) && WellPlaced(c)
    ensures TreeInv(ch[c.path := c])
  {
  }

  lemma PreparedKeepsInv(up: Parents, ch: Children, s: Stack, props: Props)
    requires TreeInv(ch)
    ensures TreeInv(Prepared(up, ch, s, props))
  {
    LogsKeepsInv(up, ch, s);
    var ch1 := LogTarget(up, ch, s, props).0;
    AddKeepsInv(ch1, Key((s, DEFAULT_KEY)));
  }

  lemma RequestKeepsInv(up: Parents, ch: Children, s: Stack, props: Props)
    requires TreeInv(ch)
    ensures TreeInv(GetOrCreate(up, ch, s, props).0)
  {
    if Find(up, ch, s, props.bucketName).None? {
      PreparedKeepsInv(up, ch, s, props);
      NewIs(up, ch, s, props);
      LogTargetIs(up, ch, s, props);
      var (ch1, logs) := LogTarget(up, ch, s, props);
      var b := BucketOf(s, props, EncryptionKey(up, ch1, s, props).1, logs.value);
      AddKeepsInv(Prepared(up, ch, s, props), b);
    }
  }

  lemma {:induction false} TreesKeepInv(up: Parents, rs: seq<Request>)
    ensures TreeInv(Tree(up, rs))
  {
    if rs != [] {
      TreesKeepInv(up, rs[..|rs| - 1]);
      RequestKeepsInv(up, Tree(up, rs[..|rs| - 1]), rs[|rs| - 1].stack, rs[|rs| - 1].props);
    }
  }

  /** For a name that is not the key's: the answer is a bucket of that name in the stack or in the stack it
      is nested in. A bucket created with a log prefix, and no log bucket of the caller's, logs to a
      construct named for access logs that stood in the tree before it. */
  lemma AnswersAreBuckets(up: Parents, rs: seq<Request>, i: nat)
    requires i < |rs| && Answer(up, rs, i).Ok? && rs[i].props.bucketName != DEFAULT_KEY
    ensures var (b, s, props, before) := (Answer(up, rs, i).value, rs[i].stack, rs[i].props, Tree(up, rs[..i]));
            && b.Bucket? && b.path.1 == props.bucketName && (b.path.0 == s || (s in up && b.path.0 == up[s]))
            && (Find(up, before, s, props.bucketName).None? && WantsLogs(props) && props.serverAccessLogsBucket.None? ==>
                  && b.logsBucket.Some? && b.logsBucket.value.path.1 == LOGS
                  && TargetStands(GetOrCreate(up, before, s, props).0, b, b.logsBucket.value)
                  && TargetStands(GetOrCreate(up, before, s, LOGS_PROPS).0, b, b.logsBucket.value))
  {
    var before := Tree(up, rs[..i]);
    var (s, props) := (rs[i].stack, rs[i].props);
    TreesKeepInv(up, rs[..i]);
    RequestKeepsInv(up, before, s, props);
    LogsKeepsInv(up, before, s);
    OneRequest(up, before, s, props);
    LogsRequest(up, before, s);
    if Find(up, before, s, props.bucketName).None? && WantsLogs(props) && props.serverAccessLogsBucket.None? {
      var ch1 := LogTarget(up, before, s, props).0;
      assert ch1 == GetOrCreate(up, before, s, LOGS_PROPS).0;
      EncryptionKeyIs(up, ch1, s, props);
      PreparedIs(up, before, s, props);
    }
  }
}
