/** The persistent entities of the study-group backend and the small pure
    helpers attached to them: the upload path of a document, the derived
    file fields captured when a document is saved, and the computed status
    of a scheduled study session. */
module Models {

  datatype Option<+T> = None | Some(value: T)

  // Primary keys. Every table draws from one auto-increment counter.
  type UserId = nat
  type GroupId = nat
  type MembershipId = nat
  type SessionId = nat
  type TaskId = nat
  type DocumentId = nat
  type CommentId = nat
  type TimerId = nat
  type NotificationId = nat

  datatype Role = Admin | Member
  datatype TaskStatus = Pending | Complete

  /** The status a new task gets: the one the client sent, else pending. */
  function StatusOrDefault(s: Option<TaskStatus>): TaskStatus
  {
    if s.Some? then s.value else Pending
  }
  datatype TimerMode = Timed | Focused | Pomodoro

  datatype User = User(username: string, email: string, isSuperuser: bool)

  /** One per user at most; both counters are positive-integer columns. */
  datatype Profile = Profile(
    themeMode: string,
    totalStudyTime: nat,        // minutes
    completedTasksCount: nat,
    bio: Option<string>)

  /** A freshly created profile: light theme, both counters zero. */
  const DefaultProfile := Profile("light", 0, 0, None)

  datatype Group = Group(name: string, description: string, createdBy: UserId)

  datatype Membership = Membership(user: UserId, group: GroupId, role: Role)

  datatype StudySession = StudySession(group: GroupId, title: string, startTime: int, endTime: int)

  datatype Task = Task(session: SessionId, createdBy: UserId, title: string, status: TaskStatus)

  /** An uploaded file as the blob store reports it: its name and its size in bytes. */
  datatype FileBlob = FileBlob(name: string, size: nat)

  datatype Document = Document(
    group: GroupId,
    uploadedBy: UserId,
    title: string,
    file: Option<FileBlob>,
    approved: bool,
    fileSize: nat,
    fileType: string)

  datatype DocumentComment = DocumentComment(document: DocumentId, user: UserId, text: string)

  /** A personal focus timer; timestamps are whole seconds. */
  datatype TimerSession = TimerSession(
    user: UserId,
    mode: TimerMode,
    duration: nat,              // planned minutes
    startedAt: int,
    endedAt: Option<int>,
    isPaused: bool,
    pausedAt: Option<int>)

  datatype Notification = Notification(user: UserId, message: string, kind: string, readStatus: bool)

  // ---------------------------------------------------------------------
  // Decimal rendering of a primary key, as an f-string prints it.

  predicate IsDigit(c: char) { '0' <= c <= '9' }

  predicate AllDigits(s: string) { forall i :: 0 <= i < |s| ==> IsDigit(s[i]) }

  function DigitChar(d: nat): (c: char)
    requires d < 10
    ensures IsDigit(c) && (c as int) - ('0' as int) == d
  {
    "0123456789"[d]
  }

  /** The number a string of decimal digits denotes. */
  function DigitsValue(s: string): nat
    requires AllDigits(s)
  {
    if s == [] then 0
    else DigitsValue(s[..|s| - 1]) * 10 + ((s[|s| - 1] as int) - ('0' as int))
  }

  /** The shortest decimal rendering of n, as str() prints it: no leading
      zero except in "0" itself, and reading it back gives n. */
  function Decimal(n: nat): (s: string)
    ensures |s| >= 1 && AllDigits(s)
    ensures |s| == 1 || s[0] != '0'
    ensures DigitsValue(s) == n
    decreases n
  {
    if n < 10 then [DigitChar(n)]
    else
      var s := Decimal(n / 10) + [DigitChar(n % 10)];
      assert s[..|s| - 1] == Decimal(n / 10);
      assert s[0] == Decimal(n / 10)[0];
      s
  }

  /** The rendering is the only digit string without a leading zero that
      denotes n. */
  lemma {:induction false} DecimalUnique(s: string, n: nat)
    requires |s| >= 1 && AllDigits(s) && (|s| == 1 || s[0] != '0')
    requires DigitsValue(s) == n
    ensures s == Decimal(n)
    decreases |s|
  {
    var last := s[|s| - 1];
    var d := (last as int) - ('0' as int);
    if |s| == 1 {
      assert DigitsValue(s) == DigitsValue([]) * 10 + d;
      assert DigitChar(n) == last;
    } else {
      var init := s[..|s| - 1];
      assert init[0] == s[0];
      var v := DigitsValue(init);
      assert n == v * 10 + d;
      DecimalUnique(init, v);
      assert Decimal(0) == "0";
      assert init != Decimal(0);
      assert n / 10 == v && n % 10 == d;
      assert DigitChar(n % 10) == last;
      assert s == init + [last];
    }
  }

  // ---------------------------------------------------------------------
  // Upload path of a document's file inside the blob store.

  const UploadPrefix := "documents/group_"

  /** Index of the first '/' in s, or |s| when there is none. */
  function SlashIndex(s: string): (i: nat)
    ensures i <= |s|
    ensures forall k :: 0 <= k < i ==> s[k] != '/'
    ensures i < |s| ==> s[i] == '/'
  {
    if s == [] then 0
    else if s[0] == '/' then 0
    else 1 + SlashIndex(s[1..])
  }

  /** Reads back the group id and the file name from a storage key. */
  function ParseUploadPath(path: string): Option<(GroupId, string)>
  {
    if |path| < |UploadPrefix| || path[..|UploadPrefix|] != UploadPrefix then None
    else
      var rest := path[|UploadPrefix|..];
      var i := SlashIndex(rest);
      if i == 0 || i == |rest| || !AllDigits(rest[..i]) then None
      else Some((DigitsValue(rest[..i]), rest[i + 1..]))
  }

  /** The storage key `documents/group_<group id>/<file name>`: it starts
      with the fixed prefix, ends with the file name, and both the group id
      and the file name can be read back from it. */
  function UploadPath(group: GroupId, filename: string): (path: string)
    ensures |UploadPrefix| + 1 < |path| && path[..|UploadPrefix|] == UploadPrefix
    ensures |filename| < |path| && path[|path| - |filename|..] == filename
    ensures path[|UploadPrefix|] != '0' || path[|UploadPrefix| + 1] == '/'
    ensures ParseUploadPath(path) == Some((group, filename))
  {
    var digits := Decimal(group);
    var path := UploadPrefix + digits + "/" + filename;
    var rest := path[|UploadPrefix|..];
    assert path[|UploadPrefix|] == digits[0];
    assert |digits| == 1 ==> path[|UploadPrefix| + 1] == '/';
    assert rest == digits + "/" + filename;
    assert rest[|digits|] == '/';
    assert SlashIndex(rest) == |digits|;
    assert rest[..|digits|] == digits;
    assert rest[|digits| + 1..] == filename;
    path
  }

  /** The key format is fixed: any key with the prefix whose group number
      has no leading zero and which reads back as (group, filename) is the
      key UploadPath prints. */
  lemma UploadPathUnique(group: GroupId, filename: string, path: string)
    requires |UploadPrefix| + 1 < |path| && path[..|UploadPrefix|] == UploadPrefix
    requires path[|UploadPrefix|] != '0' || path[|UploadPrefix| + 1] == '/'
    requires ParseUploadPath(path) == Some((group, filename))
    ensures path == UploadPath(group, filename)
  {
    var rest := path[|UploadPrefix|..];
    var i := SlashIndex(rest);
    var digits := rest[..i];
    assert digits[0] == path[|UploadPrefix|];
    if digits[0] == '0' {
      assert rest[1] == '/';
      assert i == 1;
    }
    DecimalUnique(digits, group);
    assert rest == digits + "/" + filename;
    assert path == UploadPrefix + rest;
    assert path == UploadPrefix + Decimal(group) + "/" + filename;
  }

  // ---------------------------------------------------------------------
  // Derived file fields captured by Document.save.

  /** The text after the last '.' of a file name: the whole name when it
      has no dot, the empty string when it ends with one. */
  function FileType(name: string): (ext: string)
    ensures |ext| <= |name| && ext == name[|name| - |ext|..]
    ensures '.' !in ext
    ensures ext == name || name[|name| - |ext| - 1] == '.'
    decreases |name|
  {
    if name == [] then []
    else if name[|name| - 1] == '.' then []
    else
      var front := name[..|name| - 1];
      var ext := FileType(front) + [name[|name| - 1]];
      assert name == front + [name[|name| - 1]];
      ext
  }

  /** The document as Document.save stores it: with a file present, the
      size and the type are taken from the file; without one, the document
      is unchanged. No other field is touched. */
  function CaptureFileFields(d: Document): (r: Document)
    ensures r.group == d.group && r.uploadedBy == d.uploadedBy && r.title == d.title
    ensures r.file == d.file && r.approved == d.approved
    ensures d.file.Some? ==> r.fileSize == d.file.value.size && r.fileType == FileType(d.file.value.name)
    ensures d.file.None? ==> r == d
  {
    match d.file
    case None => d
    case Some(f) => d.(fileSize := f.size, fileType := FileType(f.name))
  }

  /** Saving a row again with the same file recaptures the same derived
      fields. From the second save on the file name is the storage key and
      no longer changes, so every later save stores the same row. */
  lemma CaptureFileFieldsIdempotent(d: Document)
    ensures CaptureFileFields(CaptureFileFields(d)) == CaptureFileFields(d)
  {
  }

  /** The file as the row holds it once the upload is committed: its name
      is replaced by the storage key, its size is kept. */
  function StoredFile(group: GroupId, file: Option<FileBlob>): (r: Option<FileBlob>)
    ensures r.None? <==> file.None?
    ensures file.Some? ==> r.value == FileBlob(UploadPath(group, file.value.name), file.value.size)
  {
    match file
    case None => None
    case Some(f) => Some(FileBlob(UploadPath(group, f.name), f.size))
  }

  /** A name that contains a dot keeps its type whatever is put in front. */
  lemma {:induction false} FileTypeOfSuffix(front: string, name: string)
    requires '.' in name
    ensures FileType(front + name) == FileType(name)
    decreases |name|
  {
    var whole := front + name;
    var last := name[|name| - 1];
    assert whole[|whole| - 1] == last;
    if last == '.' {
      assert FileType(whole) == [] == FileType(name);
    } else {
      var init := name[..|name| - 1];
      assert name == init + [last];
      assert '.' in init;
      assert whole[..|whole| - 1] == front + init;
      assert FileType(whole) == FileType(front + init) + [last];
      assert FileType(name) == FileType(init) + [last];
      FileTypeOfSuffix(front, init);
    }
  }

  /** The type of a dot-free name is the whole name. */
  lemma DotFreeType(name: string)
    requires '.' !in name
    ensures FileType(name) == name
  {
  }

  /** No dot appears in the storage key before the file name. */
  lemma KeyFrontDotFree(group: GroupId)
    ensures '.' !in UploadPrefix + Decimal(group) + "/"
  {
    var digits := Decimal(group);
    assert '.' !in UploadPrefix;
    assert forall i :: 0 <= i < |digits| ==> digits[i] != '.';
  }

  /** Recapturing the type from the storage key gives the original type
      exactly when the file name has a dot; a dot-free name's type becomes
      the whole key. */
  lemma StorageKeyType(group: GroupId, name: string)
    ensures '.' in name ==> FileType(UploadPath(group, name)) == FileType(name)
    ensures '.' !in name ==> FileType(UploadPath(group, name)) == UploadPath(group, name)
    ensures FileType(UploadPath(group, name)) == FileType(name) <==> '.' in name
  {
    var front := UploadPrefix + Decimal(group) + "/";
    var key := UploadPath(group, name);
    assert key == front + name;
    if '.' in name {
      FileTypeOfSuffix(front, name);
    } else {
      KeyFrontDotFree(group);
      assert '.' !in key;
      DotFreeType(key);
      DotFreeType(name);
      assert |key| > |name|;
    }
  }

  // ---------------------------------------------------------------------
  // Computed status of a study session.

  /** "completed" exactly when the session ended strictly before now. */
  function SessionStatus(s: StudySession, now: int): (status: string)
    ensures status == "completed" || status == "active"
    ensures status == "completed" <==> s.endTime < now
  {
    if s.endTime < now then "completed" else "active"
  }

  /** A completed session stays completed as time goes on. */
  lemma SessionStatusStable(s: StudySession, now: int, later: int)
    requires now <= later
    requires SessionStatus(s, now) == "completed"
    ensures SessionStatus(s, later) == "completed"
  {
  }
}
