/**
 * The administrator page's list computations: the statistics cards, the user, connection
 * and message filters, the profile-image checks, the profile save payload and the guard on
 * the delete button. Timestamps are milliseconds since the epoch and `now` is a parameter.
 */
module AdminDashboard {
  import opened Wrappers
  import opened Seqs
  import opened Text

  datatype AdminUser = AdminUser(id: int, username: string, email: Option<string>, firstName: Option<string>,
                                 lastName: Option<string>, profileImageUrl: Option<string>, role: string)

  datatype AdminConnection = AdminConnection(id: int, name: string, isConnected: bool)

  datatype AdminMessage = AdminMessage(id: int, topic: string, payload: string, connectionId: int, timestamp: int)

  datatype Stats = Stats(totalUsers: nat, adminUsers: nat, regularUsers: nat, totalConnections: nat,
                         activeConnections: nat, inactiveConnections: nat, totalMessages: nat,
                         messagesLast24h: nat, systemHealth: nat)

  const HourMs: int := 60 * 60 * 1000
  const DayMs: int := 24 * HourMs
  /** The most messages the message tab lists. */
  const MessageCap: nat := 100
  /** The largest accepted profile image, in bytes. */
  const MaxImageBytes: nat := 2 * 1024 * 1024

  function AdminCount(users: seq<AdminUser>): nat {
    |Filter(users, (u: AdminUser) => u.role == "admin")|
  }

  function ActiveCount(conns: seq<AdminConnection>): nat {
    |Filter(conns, (c: AdminConnection) => c.isConnected)|
  }

  /**
   * The `stats` object: connections split into active and inactive, administrators and
   * regular users never outnumber the users, recent messages never outnumber the messages,
   * and the health figure is 95 exactly when some connection is up.
   */
  function ComputeStats(users: seq<AdminUser>, conns: seq<AdminConnection>, messages: seq<AdminMessage>, now: int): (r: Stats)
    ensures r.totalUsers == |users| && r.totalConnections == |conns| && r.totalMessages == |messages|
    ensures r.adminUsers == AdminCount(users) && r.activeConnections == ActiveCount(conns)
    ensures r.activeConnections + r.inactiveConnections == r.totalConnections
    ensures r.adminUsers + r.regularUsers <= r.totalUsers
    ensures r.messagesLast24h <= r.totalMessages
    ensures r.systemHealth == (if exists i :: 0 <= i < |conns| && conns[i].isConnected then 95 else 70)
  {
    var isAdmin := (u: AdminUser) => u.role == "admin";
    var isRegular := (u: AdminUser) => u.role == "user";
    var up := (c: AdminConnection) => c.isConnected;
    var down := (c: AdminConnection) => !c.isConnected;
    FilterComplement(conns, up, down);
    FilterDisjoint(users, isAdmin, isRegular);
    var active := Filter(conns, up);
    assert (exists i :: 0 <= i < |conns| && conns[i].isConnected) <==> |active| > 0 by {
      if |active| > 0 {
        FilterMember(conns, up, 0);
        var i :| 0 <= i < |conns| && conns[i] == active[0];
      }
    }
    Stats(|users|, |Filter(users, isAdmin)|, |Filter(users, isRegular)|, |conns|, |active|,
          |Filter(conns, down)|, |messages|,
          |Filter(messages, (m: AdminMessage) => m.timestamp > now - DayMs)|,
          if |active| > 0 then 95 else 70)
  }

  /** A user row passes the role selector. */
  predicate MatchesRole(u: AdminUser, filterRole: string) {
    filterRole == "all" || u.role == filterRole
  }

  /** A user row passes the search box: the username or a non-empty e-mail contains the term, ignoring case. */
  predicate MatchesSearch(u: AdminUser, searchTerm: string) {
    || searchTerm == ""
    || Contains(Lower(u.username), Lower(searchTerm))
    || (u.email.Some? && u.email.value != "" && Contains(Lower(u.email.value), Lower(searchTerm)))
  }

  /**
   * `filteredUsers`: the rows that pass both the role selector and the search box, in their
   * original order; with no filter set, all of them.
   */
  function FilteredUsers(users: seq<AdminUser>, filterRole: string, searchTerm: string): (r: seq<AdminUser>)
    ensures IsSubsequence(r, users)
    ensures forall i :: 0 <= i < |r| ==> MatchesRole(r[i], filterRole) && MatchesSearch(r[i], searchTerm)
    ensures forall i :: 0 <= i < |users| && MatchesRole(users[i], filterRole) && MatchesSearch(users[i], searchTerm) ==>
              users[i] in r
    ensures filterRole == "all" && searchTerm == "" ==> r == users
  {
    Filter(users, (u: AdminUser) => MatchesRole(u, filterRole) && MatchesSearch(u, searchTerm))
  }

  /** `visibleConnections`: everything when inactive ones are shown, else exactly the connected ones in order. */
  function VisibleConnections(conns: seq<AdminConnection>, showInactive: bool): (r: seq<AdminConnection>)
    ensures showInactive ==> r == conns
    ensures IsSubsequence(r, conns)
    ensures !showInactive ==> forall i :: 0 <= i < |r| ==> r[i].isConnected
    ensures !showInactive ==> forall i :: 0 <= i < |conns| && conns[i].isConnected ==> conns[i] in r
  {
    SubsequenceReflexive(conns);
    if showInactive then conns else Filter(conns, (c: AdminConnection) => c.isConnected)
  }

  /** A message passes the message selector: 'recent' means the last hour, anything else a topic search. */
  predicate MatchesMessage(m: AdminMessage, messageFilter: string, now: int) {
    if messageFilter == "recent" then m.timestamp > now - HourMs
    else Contains(Lower(m.topic), Lower(messageFilter))
  }

  function Min(a: nat, b: nat): nat {
    if a <= b then a else b
  }

  /**
   * `filteredMessages`: at most 100 messages in their original order; for 'all' the first
   * ones, otherwise the first that pass the selector, all of them when fewer than 100 do.
   */
  function FilteredMessages(messages: seq<AdminMessage>, messageFilter: string, now: int): (r: seq<AdminMessage>)
    ensures |r| <= MessageCap
    ensures IsSubsequence(r, messages)
    ensures messageFilter == "all" ==> r == messages[..Min(MessageCap, |messages|)]
    ensures messageFilter != "all" ==> forall i :: 0 <= i < |r| ==> MatchesMessage(r[i], messageFilter, now)
    ensures messageFilter != "all" && |r| < MessageCap ==>
              forall i :: 0 <= i < |messages| && MatchesMessage(messages[i], messageFilter, now) ==> messages[i] in r
    ensures var matching := Filter(messages, (m: AdminMessage) => MatchesMessage(m, messageFilter, now));
            messageFilter != "all" ==> r == matching[..Min(MessageCap, |matching|)]
  {
    if messageFilter == "all" then
      SubsequenceReflexive(messages);
      PrefixOfSubsequence(messages, messages, Min(MessageCap, |messages|));
      messages[..Min(MessageCap, |messages|)]
    else
      var matching := Filter(messages, (m: AdminMessage) => MatchesMessage(m, messageFilter, now));
      PrefixOfSubsequence(matching, messages, Min(MessageCap, |matching|));
      assert |matching| < MessageCap ==> matching[..Min(MessageCap, |matching|)] == matching;
      matching[..Min(MessageCap, |matching|)]
  }

  /** The file chosen in the image picker. */
  datatype ImageFile = ImageFile(size: nat, mimeType: string)

  datatype UploadResult = NoFile | Rejected(message: string) | ReadAsDataUrl(file: ImageFile)

  /**
   * `handleImageUpload`: a file over 2 MB is refused first, then one whose type is not
   * `image/...`; any other file is read.
   */
  function ImageUpload(file: Option<ImageFile>): (r: UploadResult)
    ensures file.None? <==> r.NoFile?
    ensures r.ReadAsDataUrl? <==> file.Some? && file.value.size <= MaxImageBytes && StartsWith(file.value.mimeType, "image/")
    ensures r.ReadAsDataUrl? ==> r.file == file.value
    ensures file.Some? && file.value.size > MaxImageBytes ==> r == Rejected("Image file must be less than 2MB")
    ensures file.Some? && file.value.size <= MaxImageBytes && !StartsWith(file.value.mimeType, "image/") ==>
              r == Rejected("Please select a valid image file")
  {
    match file
    case None => NoFile
    case Some(f) =>
      if f.size > MaxImageBytes then Rejected("Image file must be less than 2MB")
      else if !StartsWith(f.mimeType, "image/") then Rejected("Please select a valid image file")
      else ReadAsDataUrl(f)
  }

  /** The body `handleSaveUserProfile` sends; `profileImageUrl` is `None` when the field is omitted. */
  datatype ProfilePayload = ProfilePayload(userId: int, username: string, email: Option<string>, firstName: Option<string>,
                                           lastName: Option<string>, role: string, profileImageUrl: Option<Option<string>>)

  /**
   * `handleSaveUserProfile`: nothing is sent without a user being edited; otherwise the
   * editable fields are copied and the image is included exactly when it was changed.
   */
  function SaveUserProfile(editing: Option<AdminUser>, editImage: Option<string>): (r: Option<ProfilePayload>)
    ensures r.None? <==> editing.None?
    ensures r.Some? ==>
              && r.value.userId == editing.value.id && r.value.username == editing.value.username
              && r.value.email == editing.value.email && r.value.firstName == editing.value.firstName
              && r.value.lastName == editing.value.lastName && r.value.role == editing.value.role
    ensures r.Some? ==> (r.value.profileImageUrl.Some? <==> editImage != editing.value.profileImageUrl)
    ensures r.Some? && r.value.profileImageUrl.Some? ==> r.value.profileImageUrl.value == editImage
  {
    match editing
    case None => None
    case Some(u) =>
      Some(ProfilePayload(u.id, u.username, u.email, u.firstName, u.lastName, u.role,
                          if editImage != u.profileImageUrl then Some(editImage) else None))
  }

  /** A partial update as the server applies it: an omitted image keeps the stored one. */
  function ApplyProfile(u: AdminUser, p: ProfilePayload): AdminUser {
    u.(username := p.username, email := p.email, firstName := p.firstName, lastName := p.lastName, role := p.role,
       profileImageUrl := p.profileImageUrl.GetOr(u.profileImageUrl))
  }

  /** Saving and applying the payload leaves the user with exactly the edited image, and nothing else changed. */
  lemma SaveRoundTrip(u: AdminUser, editImage: Option<string>)
    ensures SaveUserProfile(Some(u), editImage).Some?
    ensures ApplyProfile(u, SaveUserProfile(Some(u), editImage).value) == u.(profileImageUrl := editImage)
  {
  }

  /** The delete button is disabled for an administrator row while at most one administrator exists. */
  predicate DeleteDisabled(u: AdminUser, stats: Stats) {
    u.role == "admin" && stats.adminUsers <= 1
  }

  /** Deleting any row whose button is enabled leaves an administrator, if there was one. */
  lemma DeleteEnabledKeepsAdmin(users: seq<AdminUser>, conns: seq<AdminConnection>, messages: seq<AdminMessage>,
                                now: int, i: nat)
    requires i < |users| && AdminCount(users) >= 1
    requires !DeleteDisabled(users[i], ComputeStats(users, conns, messages, now))
    ensures AdminCount(users[..i] + users[i + 1..]) >= 1
  {
    var isAdmin := (u: AdminUser) => u.role == "admin";
    var before, row, after := users[..i], [users[i]], users[i + 1..];
    assert users == before + (row + after);
    FilterConcat(before, row + after, isAdmin);
    FilterConcat(row, after, isAdmin);
    FilterConcat(before, after, isAdmin);
    assert row[1..] == [];
    assert |Filter(row, isAdmin)| == if users[i].role == "admin" then 1 else 0;
  }
}
