// The activity log (src/components/Admin/ActivityLogging.jsx): the three
// filters over the log, the lists offered in the user and action pickers,
// the action labels, the "time ago" label and the CSV download.
module ActivityLogging {
  import opened Optional
  import opened Text
  import Lists
  import TimeAgo
  import Csv

  /** One logged action; `timestamp` is in milliseconds. */
  datatype Activity = Activity(id: int, userId: string, userName: string, action: string, description: string,
                               timestamp: int, ipAddress: string, device: string, status: string)

  /** The seven actions with a label of their own. */
  const KnownActions: set<string> :=
    {"login", "logout", "apply_job", "create_job", "update_profile", "delete_user", "create_placement"}

  /** `getActionLabel`: a fixed label for each known action, any other action as it is. */
  function ActionLabel(action: string): (name: string)
    ensures action !in KnownActions ==> name == action
    ensures action in KnownActions ==> name != action
  {
    if action == "login" then "Login"
    else if action == "logout" then "Logout"
    else if action == "apply_job" then "Job Application"
    else if action == "create_job" then "Job Posted"
    else if action == "update_profile" then "Profile Updated"
    else if action == "delete_user" then "User Deleted"
    else if action == "create_placement" then "Placement Created"
    else action
  }

  /** No two known actions share a label. */
  lemma KnownLabelsDistinct(a1: string, a2: string)
    requires a1 in KnownActions && a2 in KnownActions
    requires ActionLabel(a1) == ActionLabel(a2)
    ensures a1 == a2
  {
    assert "Login" != "Logout" && "Job Application" != "Job Posted";
  }

  /** The search box: empty, or found ignoring case in the description or the user's name. */
  predicate SearchMatch(a: Activity, searchTerm: string)
  {
    searchTerm == "" ||
    Contains(ToLower(a.description), ToLower(searchTerm)) ||
    Contains(ToLower(a.userName), ToLower(searchTerm))
  }

  predicate Shown(a: Activity, filterAction: string, filterUser: string, searchTerm: string)
  {
    (filterAction == "all" || a.action == filterAction) &&
    (filterUser == "all" || a.userId == filterUser) &&
    SearchMatch(a, searchTerm)
  }

  function ShownBy(filterAction: string, filterUser: string, searchTerm: string): Activity -> bool
  {
    (a: Activity) => Shown(a, filterAction, filterUser, searchTerm)
  }

  /** `filteredActivities`: the entries, in order, that pass all three filters. */
  function Filtered(activities: seq<Activity>, filterAction: string, filterUser: string, searchTerm: string)
    : (r: seq<Activity>)
    ensures Lists.IsSubsequence(r, activities)
    ensures forall a :: a in r <==> a in activities && Shown(a, filterAction, filterUser, searchTerm)
  {
    Lists.Filter(activities, ShownBy(filterAction, filterUser, searchTerm))
  }

  /** With every filter at its default the whole log is shown. */
  lemma NoFilterShowsAll(activities: seq<Activity>)
    ensures Filtered(activities, "all", "all", "") == activities
  {
    Lists.FilterKeepsAll(activities, ShownBy("all", "all", ""));
  }

  function UserIdOf(a: Activity): string { a.userId }
  function ActionOf(a: Activity): string { a.action }

  /** `uniqueUsers`: each user id in the log once, in order of first appearance. */
  function UniqueUsers(activities: seq<Activity>): (r: seq<string>)
    ensures Lists.NoDuplicates(r)
    ensures forall u :: u in r <==> exists a :: a in activities && a.userId == u
    ensures var ids := Lists.Map(activities, UserIdOf);
      forall i, j :: 0 <= i < j < |r| ==>
        r[i] in ids && r[j] in ids && Lists.IndexOf(ids, r[i]) < Lists.IndexOf(ids, r[j])
  {
    var ids := Lists.Map(activities, UserIdOf);
    Lists.MapHas(activities, UserIdOf);
    Lists.Dedup(ids)
  }

  /** `uniqueActions`: each action in the log once, in order of first appearance. */
  function UniqueActions(activities: seq<Activity>): (r: seq<string>)
    ensures Lists.NoDuplicates(r)
    ensures forall x :: x in r <==> exists a :: a in activities && a.action == x
    ensures var ids := Lists.Map(activities, ActionOf);
      forall i, j :: 0 <= i < j < |r| ==>
        r[i] in ids && r[j] in ids && Lists.IndexOf(ids, r[i]) < Lists.IndexOf(ids, r[j])
  {
    var actions := Lists.Map(activities, ActionOf);
    Lists.MapHas(activities, ActionOf);
    Lists.Dedup(actions)
  }

  /** `formatTime` for an elapsed time in milliseconds; None where the source falls back to the locale date. */
  function FormatTime(diff: int): (shown: Option<string>)
    ensures shown.Some? <==> diff < 7 * TimeAgo.MsPerDay
  {
    match TimeAgo.Bucket(diff)
    case Minutes(n) => Some(IntText(n) + " min ago")
    case Hours(n) => Some(IntText(n) + "h ago")
    case Days(n) => Some(IntText(n) + "d ago")
    case Older => None
  }

  /** The label is given for less than a week, and a minutes label always reads "N min ago" for the floored minutes. */
  lemma FormatTimeBuckets(diff: int)
    ensures FormatTime(diff).Some? <==> diff < 7 * TimeAgo.MsPerDay
    ensures diff < 60 * TimeAgo.MsPerMinute ==>
      exists n :: n * TimeAgo.MsPerMinute <= diff < (n + 1) * TimeAgo.MsPerMinute &&
        FormatTime(diff) == Some(IntText(n) + " min ago")
  {
    if diff < 60 * TimeAgo.MsPerMinute {
      var n := TimeAgo.Bucket(diff).n;
      assert n * TimeAgo.MsPerMinute <= diff < (n + 1) * TimeAgo.MsPerMinute;
    }
  }

  /** The column names of the header line, which the export writes joined by ','. */
  const Header: seq<string> := ["Timestamp", "User", "Action", "Description", "IP Address", "Device", "Status"]

  /** The seven cells of an entry's line; `isoTime` stands for `toISOString` of its timestamp. */
  function Row(a: Activity, isoTime: int -> string): (cells: seq<string>)
    ensures |cells| == |Header|
    ensures cells[2] == ActionLabel(a.action)
  {
    [isoTime(a.timestamp), a.userName, ActionLabel(a.action), a.description, a.ipAddress, a.device, a.status]
  }

  function RowFor(isoTime: int -> string): Activity -> seq<string>
  {
    (a: Activity) => Row(a, isoTime)
  }

  /** `exportActivityLog`'s text: the fixed header line, then one quoted line per entry, in log order. */
  method ExportActivityLog(activities: seq<Activity>, isoTime: int -> string) returns (csv: string)
    ensures csv == Csv.Document(Header, Lists.Map(activities, RowFor(isoTime)))
  {
    csv := Csv.WriteDocument(Header, activities, RowFor(isoTime));
  }

  /**
   * The download reads back as its header and one row per entry, provided
   * no cell holds a double quote or a line break.
   */
  lemma ExportReadsBack(activities: seq<Activity>, isoTime: int -> string)
    requires forall a :: a in activities ==> Csv.PlainRow(Row(a, isoTime))
    ensures Csv.ParseDocument(Csv.Document(Header, Lists.Map(activities, RowFor(isoTime)))) ==
      Some((Header, Lists.Map(activities, RowFor(isoTime))))
  {
    var rows := Lists.Map(activities, RowFor(isoTime));
    forall r | r in rows
      ensures Csv.PlainRow(r)
    {
      var k :| 0 <= k < |rows| && rows[k] == r;
      assert activities[k] in activities;
    }
    Csv.DocumentRoundTrip(Header, rows);
  }
}
