/**
 * Permission resolution (lib/Service/PermissionService.php): the app config
 * holds JSON lists of "user:<id>" and "group:<id>" entries under the keys
 * "editors" and "viewers"; a user is an editor (viewer) when an entry of the
 * list names them or a group they belong to. Admins can do everything.
 *
 * The group manager is an abstract membership relation: a directory from
 * group id to the ids of its members. Nextcloud's isAdmin is membership of
 * the group "admin".
 */
module Permissions {
  import opened Text

  /** Group id -> member ids, as the group manager reports them. */
  type Directory = map<string, seq<string>>

  const AdminGroup := "admin"
  const EditorsKey := "editors"
  const ViewersKey := "viewers"
  const UserPrefix := "user:"
  const GroupPrefix := "group:"

  predicate IsInGroup(dir: Directory, userId: string, groupId: string)
  {
    groupId in dir && userId in dir[groupId]
  }

  predicate IsAdmin(dir: Directory, userId: string)
  {
    IsInGroup(dir, userId, AdminGroup)
  }

  /** An element of a decoded PHP array: a string, or any other JSON value. */
  datatype Entry = Str(s: string) | NonString

  /**
   * What json_decode($json, true) makes of a stored config value: no array,
   * or an array. A JSON object decodes to an array too; List then holds its
   * values in key order, which is the order foreach visits them.
   */
  datatype Stored = NotArray | List(entries: seq<Entry>)

  /** The entry grants the permission to the user. */
  predicate Grants(e: Entry, dir: Directory, userId: string)
  {
    && e.Str?
    && if StartsWith(UserPrefix, e.s) then e.s[|UserPrefix|..] == userId
       else StartsWith(GroupPrefix, e.s) && IsInGroup(dir, userId, e.s[|GroupPrefix|..])
  }

  /** Some entry of the stored list grants the permission; anything but a list grants nothing. */
  predicate Permitted(v: Stored, dir: Directory, userId: string)
  {
    v.List? && exists i :: 0 <= i < |v.entries| && Grants(v.entries[i], dir, userId)
  }

  /**
   * The permission in plain terms: the list holds "user:<userId>", or
   * "group:<g>" for a group g the user belongs to.
   */
  lemma PermittedIff(es: seq<Entry>, dir: Directory, userId: string)
    ensures Permitted(List(es), dir, userId) <==>
      (Str(UserPrefix + userId) in es
       || exists g :: Str(GroupPrefix + g) in es && IsInGroup(dir, userId, g))
  {
    if Permitted(List(es), dir, userId) {
      var i :| 0 <= i < |es| && Grants(es[i], dir, userId);
      var s := es[i].s;
      if StartsWith(UserPrefix, s) {
        assert s == UserPrefix + s[|UserPrefix|..];
        assert es[i] == Str(UserPrefix + userId);
      } else {
        assert s == GroupPrefix + s[|GroupPrefix|..];
        assert Str(GroupPrefix + s[|GroupPrefix|..]) in es;
      }
    }
    if Str(UserPrefix + userId) in es {
      var i :| 0 <= i < |es| && es[i] == Str(UserPrefix + userId);
      assert (UserPrefix + userId)[|UserPrefix|..] == userId;
      assert Grants(es[i], dir, userId);
    } else if g :| Str(GroupPrefix + g) in es && IsInGroup(dir, userId, g) {
      var i :| 0 <= i < |es| && es[i] == Str(GroupPrefix + g);
      var s := GroupPrefix + g;
      assert s[0] != UserPrefix[0];
      assert s[|GroupPrefix|..] == g;
      assert Grants(es[i], dir, userId);
    }
  }

  /** Entries that are not strings, or carry neither prefix, never change the outcome. */
  lemma IgnoredEntries(es: seq<Entry>, e: Entry, dir: Directory, userId: string)
    requires e.NonString? || (!StartsWith(UserPrefix, e.s) && !StartsWith(GroupPrefix, e.s))
    ensures Permitted(List(es + [e]), dir, userId) <==> Permitted(List(es), dir, userId)
  {
    var es' := es + [e];
    if Permitted(List(es'), dir, userId) {
      var i :| 0 <= i < |es'| && Grants(es'[i], dir, userId);
      assert i < |es|;
      assert es[i] == es'[i];
    }
    if Permitted(List(es), dir, userId) {
      var i :| 0 <= i < |es| && Grants(es[i], dir, userId);
      assert es'[i] == es[i];
    }
  }

  /** The flags getPermissionInfo hands to the front end. */
  datatype PermissionInfo = PermissionInfo(
    isAdmin: bool,
    isEditor: bool,
    isViewer: bool,
    canEdit: bool,
    canDeletePermanently: bool)

  class PermissionService {
    /** The group manager's membership relation. */
    const directory: Directory
    /** The app's config values, already decoded; a missing key reads as "[]". */
    var appValues: map<string, Stored>

    constructor (directory: Directory, appValues: map<string, Stored>)
      ensures this.directory == directory && this.appValues == appValues
    {
      this.directory := directory;
      this.appValues := appValues;
    }

    /** getAppValue(key, '[]') followed by json_decode. */
    function StoredValue(key: string): Stored
      reads this
    {
      if key in appValues then appValues[key] else List([])
    }

    /** hasPermission: the foreach over the stored entries, returning on the first grant. */
    method HasPermission(userId: string, configKey: string) returns (r: bool)
      ensures r <==> Permitted(StoredValue(configKey), directory, userId)
    {
      var value := StoredValue(configKey);
      if value.NotArray? {
        return false;
      }
      var entries := value.entries;
      var i := 0;
      while i < |entries|
        invariant 0 <= i <= |entries|
        invariant forall j :: 0 <= j < i ==> !Grants(entries[j], directory, userId)
      {
        var entry := entries[i];
        if entry.Str? {
          if StartsWith(UserPrefix, entry.s) {
            if entry.s[|UserPrefix|..] == userId {
              return true;
            }
          } else if StartsWith(GroupPrefix, entry.s) {
            if IsInGroup(directory, userId, entry.s[|GroupPrefix|..]) {
              return true;
            }
          }
        }
        i := i + 1;
      }
      return false;
    }

    method IsEditor(userId: string) returns (r: bool)
      ensures r <==> Permitted(StoredValue(EditorsKey), directory, userId)
    {
      r := HasPermission(userId, EditorsKey);
    }

    method IsViewer(userId: string) returns (r: bool)
      ensures r <==> Permitted(StoredValue(ViewersKey), directory, userId)
    {
      r := HasPermission(userId, ViewersKey);
    }

    /** Admin, editor or viewer: the short-circuit chain of hasAccess. */
    method HasAccess(userId: string) returns (r: bool)
      ensures r <==> IsAdmin(directory, userId)
                     || Permitted(StoredValue(EditorsKey), directory, userId)
                     || Permitted(StoredValue(ViewersKey), directory, userId)
    {
      r := IsAdmin(directory, userId);
      if !r {
        r := IsEditor(userId);
        if !r {
          r := IsViewer(userId);
        }
      }
    }

    /** Admin or editor. */
    method CanEdit(userId: string) returns (r: bool)
      ensures r <==> IsAdmin(directory, userId) || Permitted(StoredValue(EditorsKey), directory, userId)
    {
      r := IsAdmin(directory, userId);
      if !r {
        r := IsEditor(userId);
      }
    }

    /** Only admins delete permanently; the editor and viewer lists play no part. */
    method CanDeletePermanently(userId: string) returns (r: bool)
      ensures r <==> IsInGroup(directory, userId, AdminGroup)
    {
      r := IsAdmin(directory, userId);
    }

    /**
     * getPermissionInfo: the three raw checks, folded so that the flags nest
     * (admin implies editor implies viewer) and agree with canEdit,
     * hasAccess and canDeletePermanently.
     */
    method GetPermissionInfo(userId: string) returns (info: PermissionInfo)
      ensures info.isAdmin <==> IsAdmin(directory, userId)
      ensures info.isEditor <==> IsAdmin(directory, userId) || Permitted(StoredValue(EditorsKey), directory, userId)
      ensures info.isViewer <==> IsAdmin(directory, userId)
                                 || Permitted(StoredValue(EditorsKey), directory, userId)
                                 || Permitted(StoredValue(ViewersKey), directory, userId)
      ensures info.isAdmin ==> info.isEditor
      ensures info.isEditor ==> info.isViewer
      ensures info.canEdit == info.isEditor
      ensures info.canDeletePermanently == info.isAdmin
    {
      var isAdmin := IsAdmin(directory, userId);
      var isEditor := IsEditor(userId);
      var isViewer := IsViewer(userId);
      info := PermissionInfo(
        isAdmin,
        isEditor || isAdmin,
        isViewer || isEditor || isAdmin,
        isAdmin || isEditor,
        isAdmin);
    }

    /** getEditors: the decoded list, or [] when the stored value is not a list. */
    function GetEditors(): (es: seq<Entry>)
      reads this
      ensures StoredValue(EditorsKey).List? ==> es == StoredValue(EditorsKey).entries
      ensures StoredValue(EditorsKey).NotArray? ==> es == []
    {
      ListOrEmpty(StoredValue(EditorsKey))
    }

    /** getViewers: the decoded list, or [] when the stored value is not a list. */
    function GetViewers(): (es: seq<Entry>)
      reads this
      ensures StoredValue(ViewersKey).List? ==> es == StoredValue(ViewersKey).entries
      ensures StoredValue(ViewersKey).NotArray? ==> es == []
    {
      ListOrEmpty(StoredValue(ViewersKey))
    }

    /** setEditors: stores the entries as a JSON list (array_values drops the keys). */
    method SetEditors(entries: seq<Entry>)
      modifies this
      ensures appValues == old(appValues)[EditorsKey := List(entries)]
      ensures GetEditors() == entries && GetViewers() == old(GetViewers())
      ensures forall u :: Permitted(StoredValue(EditorsKey), directory, u) <==> Permitted(List(entries), directory, u)
    {
      appValues := appValues[EditorsKey := List(entries)];
    }

    /** setViewers: stores the entries as a JSON list (array_values drops the keys). */
    method SetViewers(entries: seq<Entry>)
      modifies this
      ensures appValues == old(appValues)[ViewersKey := List(entries)]
      ensures GetViewers() == entries && GetEditors() == old(GetEditors())
      ensures forall u :: Permitted(StoredValue(ViewersKey), directory, u) <==> Permitted(List(entries), directory, u)
    {
      appValues := appValues[ViewersKey := List(entries)];
    }
  }

  function ListOrEmpty(v: Stored): (es: seq<Entry>)
    ensures v.List? ==> es == v.entries
    ensures v.NotArray? ==> es == []
  {
    if v.List? then v.entries else []
  }

  /** A freshly configured editor list names the user directly: the user can edit. */
  lemma EditorByUserEntry(es: seq<Entry>, dir: Directory, userId: string)
    requires Str(UserPrefix + userId) in es
    ensures Permitted(List(es), dir, userId)
  {
    PermittedIff(es, dir, userId);
  }
}
