/** The shortcut-tile grid (src/app/components/DeepLinkGrid.tsx): the tile
    list with its edit dialog (save, delete, reset) and the press logic that
    tells a tap, which opens the tile's URL, from a 600 ms long press, which
    opens the editor. Timers become explicit "fired" events, `confirm`
    answers become boolean inputs, and a launch is returned instead of
    assigned to `window.location`. */
module DeepLinkGrid {
  import opened Types
  import Lists

  datatype AppLink = AppLink(id: string, name: string, iconName: string, url: string, color: string)

  const DEFAULT_APPS: seq<AppLink> := [
    AppLink("1", "Cult Fit", "Dumbbell", "cultfit://", "bg-orange-500"),
    AppLink("2", "Hevy", "Activity", "hevy://", "bg-blue-600"),
    AppLink("3", "Music", "Music", "music://", "bg-cyan-500"),
    AppLink("4", "Notion", "FileText", "notion://", "bg-black"),
    AppLink("5", "ChatGPT", "MessageSquare", "https://chat.openai.com", "bg-green-600"),
    AppLink("6", "Insta Cam", "Camera", "instagram://camera", "bg-pink-600")
  ]

  /** Distinct tile ids. */
  predicate UniqueAppIds(apps: seq<AppLink>) {
    forall i, j :: 0 <= i < j < |apps| ==> apps[i].id != apps[j].id
  }

  /** The default grid: six tiles with ids "1" to "6", each with an icon of its own. */
  lemma DefaultApps()
    ensures |DEFAULT_APPS| == 6 && UniqueAppIds(DEFAULT_APPS)
    ensures forall i :: 0 <= i < 6 ==> DEFAULT_APPS[i].id == ["1", "2", "3", "4", "5", "6"][i]
    ensures forall i :: 0 <= i < 6 ==> IconFor(DEFAULT_APPS[i].iconName) != LinkIcon
  {
  }

  // ---------------------------------------------------------------------------
  // Icons
  // ---------------------------------------------------------------------------

  /** The members every plain JavaScript object inherits from
      `Object.prototype`. Looking one of these names up in an object
      literal finds the inherited member, which is truthy. */
  datatype Inherited =
    | Constructor | HasOwnProperty | IsPrototypeOf | PropertyIsEnumerable
    | ToLocaleString | ToString | ValueOf | Proto
    | DefineGetter | DefineSetter | LookupGetter | LookupSetter

  function InheritedName(m: Inherited): string {
    match m
    case Constructor => "constructor"
    case HasOwnProperty => "hasOwnProperty"
    case IsPrototypeOf => "isPrototypeOf"
    case PropertyIsEnumerable => "propertyIsEnumerable"
    case ToLocaleString => "toLocaleString"
    case ToString => "toString"
    case ValueOf => "valueOf"
    case Proto => "__proto__"
    case DefineGetter => "__defineGetter__"
    case DefineSetter => "__defineSetter__"
    case LookupGetter => "__lookupGetter__"
    case LookupSetter => "__lookupSetter__"
  }

  /** What `ICON_MAP[iconName]` can yield: one of the seven icons of the
      table, or a member inherited from `Object.prototype`. */
  datatype Icon = Dumbbell | Activity | Music | FileText | MessageSquare | Camera | LinkIcon
                | InheritedMember(member: Inherited)

  /** The key under which each value is found in the name-to-icon table. */
  function IconName(icon: Icon): string {
    match icon
    case Dumbbell => "Dumbbell"
    case Activity => "Activity"
    case Music => "Music"
    case FileText => "FileText"
    case MessageSquare => "MessageSquare"
    case Camera => "Camera"
    case LinkIcon => "LinkIcon"
    case InheritedMember(m) => InheritedName(m)
  }

  /** The names of the inherited members. */
  predicate IsInheritedName(name: string) {
    name in {"constructor", "hasOwnProperty", "isPrototypeOf", "propertyIsEnumerable",
             "toLocaleString", "toString", "valueOf", "__proto__",
             "__defineGetter__", "__defineSetter__", "__lookupGetter__", "__lookupSetter__"}
  }

  /** `ICON_MAP[iconName] || LinkIcon`: a value other than the link icon is
      only chosen by its own name, so an unknown name gives the link icon.
      A name inherited from `Object.prototype` finds the inherited member
      and does not fall back. */
  function IconFor(iconName: string): (icon: Icon)
    ensures icon == LinkIcon || IconName(icon) == iconName
    ensures icon.InheritedMember? <==> IsInheritedName(iconName)
  {
    if iconName == "Dumbbell" then Dumbbell
    else if iconName == "Activity" then Activity
    else if iconName == "Music" then Music
    else if iconName == "FileText" then FileText
    else if iconName == "MessageSquare" then MessageSquare
    else if iconName == "Camera" then Camera
    else if iconName == "constructor" then InheritedMember(Constructor)
    else if iconName == "hasOwnProperty" then InheritedMember(HasOwnProperty)
    else if iconName == "isPrototypeOf" then InheritedMember(IsPrototypeOf)
    else if iconName == "propertyIsEnumerable" then InheritedMember(PropertyIsEnumerable)
    else if iconName == "toLocaleString" then InheritedMember(ToLocaleString)
    else if iconName == "toString" then InheritedMember(ToString)
    else if iconName == "valueOf" then InheritedMember(ValueOf)
    else if iconName == "__proto__" then InheritedMember(Proto)
    else if iconName == "__defineGetter__" then InheritedMember(DefineGetter)
    else if iconName == "__defineSetter__" then InheritedMember(DefineSetter)
    else if iconName == "__lookupGetter__" then InheritedMember(LookupGetter)
    else if iconName == "__lookupSetter__" then InheritedMember(LookupSetter)
    else LinkIcon
  }

  /** Every icon is found again under its own name. */
  lemma IconLookupRoundTrip(icon: Icon)
    ensures IconFor(IconName(icon)) == icon
  {
  }

  // ---------------------------------------------------------------------------
  // List edits
  // ---------------------------------------------------------------------------

  /** `apps.map(a => a.id === edited.id ? edited : a)`. */
  function ReplaceById(apps: seq<AppLink>, edited: AppLink): (r: seq<AppLink>)
    ensures |r| == |apps|
    ensures forall i :: 0 <= i < |r| ==> r[i].id == apps[i].id
    ensures forall i :: 0 <= i < |r| ==> r[i] == edited || r[i] == apps[i]
  {
    if apps == [] then []
    else [if apps[0].id == edited.id then edited else apps[0]] + ReplaceById(apps[1..], edited)
  }

  /** Saving puts the edited tile at every position holding its id and
      leaves every other position as it was. */
  lemma {:induction false} ReplaceByIdAt(apps: seq<AppLink>, edited: AppLink, i: nat)
    requires i < |apps|
    ensures ReplaceById(apps, edited)[i] == if apps[i].id == edited.id then edited else apps[i]
  {
    if i > 0 {
      ReplaceByIdAt(apps[1..], edited, i - 1);
    }
  }

  /** Saving the same tile again changes nothing. */
  lemma ReplaceByIdIdempotent(apps: seq<AppLink>, edited: AppLink)
    ensures ReplaceById(ReplaceById(apps, edited), edited) == ReplaceById(apps, edited)
  {
  }

  function KeepOtherApps(id: string): AppLink -> bool {
    (a: AppLink) => a.id != id
  }

  /** `apps.filter(a => a.id !== id)`. */
  function RemoveAppById(apps: seq<AppLink>, id: string): (r: seq<AppLink>)
    ensures forall a :: a in r <==> a in apps && a.id != id
  {
    Lists.FilterMembers(apps, KeepOtherApps(id));
    Lists.Filter(apps, KeepOtherApps(id))
  }

  /** With distinct ids, deleting the tile at `i` removes that one position
      and keeps the others in order; deleting an id no tile has changes nothing. */
  lemma RemoveAppByIdExact(apps: seq<AppLink>, id: string)
    ensures (forall i :: 0 <= i < |apps| ==> apps[i].id != id) ==> RemoveAppById(apps, id) == apps
    ensures UniqueAppIds(apps) ==> forall i :: 0 <= i < |apps| && apps[i].id == id ==>
      RemoveAppById(apps, id) == apps[..i] + apps[i + 1..]
  {
    if forall i :: 0 <= i < |apps| ==> apps[i].id != id {
      Lists.FilterKeepsAll(apps, KeepOtherApps(id));
    }
    if UniqueAppIds(apps) {
      forall i | 0 <= i < |apps| && apps[i].id == id
        ensures RemoveAppById(apps, id) == apps[..i] + apps[i + 1..]
      {
        Lists.FilterRemovesOne(apps, KeepOtherApps(id), i);
      }
    }
  }

  /** Deleting by id keeps the ids distinct. */
  lemma RemoveAppByIdKeepsUnique(apps: seq<AppLink>, id: string)
    requires UniqueAppIds(apps)
    ensures UniqueAppIds(RemoveAppById(apps, id))
  {
    RemoveAppByIdExact(apps, id);
    if i :| 0 <= i < |apps| && apps[i].id == id {
      var r := apps[..i] + apps[i + 1..];
      forall j, k | 0 <= j < k < |r|
        ensures r[j].id != r[k].id
      {
        var j', k' := if j < i then j else j + 1, if k < i then k else k + 1;
        assert r[j] == apps[j'] && r[k] == apps[k'];
      }
    }
  }

  // ---------------------------------------------------------------------------
  // The component's state
  // ---------------------------------------------------------------------------

  class TileGrid {
    var apps: seq<AppLink>
    var editingApp: Option<AppLink>
    var isDialogOpen: bool
    /** The long-press timer that is armed and has neither fired nor been
        cleared, with the tile it will open. */
    var pressTimer: Option<AppLink>
    var isLongPress: bool

    /** The tiles have distinct ids. */
    predicate Valid()
      reads this
    {
      UniqueAppIds(apps)
    }

    constructor ()
      ensures Valid()
      ensures apps == DEFAULT_APPS && editingApp.None? && !isDialogOpen
      ensures pressTimer.None? && !isLongPress
    {
      apps := DEFAULT_APPS;
      DefaultApps();
      editingApp := None;
      isDialogOpen := false;
      pressTimer := None;
      isLongPress := false;
    }

    /** `handleStartPress(app)`: forget any earlier long press and arm the 600 ms timer. */
    method StartPress(app: AppLink)
      modifies this`isLongPress, this`pressTimer
      ensures !isLongPress && pressTimer == Some(app)
    {
      isLongPress := false;
      pressTimer := Some(app);
    }

    /** The 600 ms have passed with the timer still armed: it is a long
        press, and the editor opens on the pressed tile. */
    method TimerFired()
      modifies this`isLongPress, this`pressTimer, this`editingApp, this`isDialogOpen
      ensures old(pressTimer).None? ==>
        isLongPress == old(isLongPress) && editingApp == old(editingApp) && isDialogOpen == old(isDialogOpen)
      ensures old(pressTimer).Some? ==>
        isLongPress && editingApp == old(pressTimer) && isDialogOpen
      ensures pressTimer.None?
    {
      if pressTimer.Some? {
        isLongPress := true;
        editingApp := pressTimer;
        isDialogOpen := true;
        pressTimer := None;
      }
    }

    /** `handleEndPress(url)`: clear a pending timer, and launch the URL
        only when this press did not become a long press and the URL is non-empty. */
    method EndPress(url: string) returns (launch: Option<string>)
      modifies this`pressTimer
      ensures pressTimer.None?
      ensures launch.Some? <==> !isLongPress && url != ""
      ensures launch.Some? ==> launch.value == url
    {
      pressTimer := None;
      if !isLongPress && url != "" {
        launch := Some(url);
      } else {
        launch := None;
      }
    }

    /** The press leaves the tile: the pending timer is cleared. */
    method LeavePress()
      modifies this`pressTimer
      ensures pressTimer.None?
    {
      pressTimer := None;
    }

    /** A right click opens the editor on the tile at once. */
    method ContextMenu(app: AppLink)
      modifies this`editingApp, this`isDialogOpen
      ensures editingApp == Some(app) && isDialogOpen
    {
      editingApp := Some(app);
      isDialogOpen := true;
    }

    /** Typing in the name field of the open editor. */
    method EditName(name: string)
      modifies this`editingApp
      ensures editingApp == if old(editingApp).Some? then Some(old(editingApp).value.(name := name)) else None
    {
      if editingApp.Some? {
        editingApp := Some(editingApp.value.(name := name));
      }
    }

    /** Typing in the URL field of the open editor. */
    method EditUrl(url: string)
      modifies this`editingApp
      ensures editingApp == if old(editingApp).Some? then Some(old(editingApp).value.(url := url)) else None
    {
      if editingApp.Some? {
        editingApp := Some(editingApp.value.(url := url));
      }
    }

    /** The dialog's own open/close requests (its Cancel button and the
        overlay); the tile being edited is kept. */
    method SetDialogOpen(open: bool)
      modifies this`isDialogOpen
      ensures isDialogOpen == open
    {
      isDialogOpen := open;
    }

    /** `handleSave`: write the edited tile over every tile with its id,
        then close the editor. */
    method Save()
      modifies this`apps, this`isDialogOpen, this`editingApp
      ensures old(editingApp).None? ==> apps == old(apps) && isDialogOpen == old(isDialogOpen) && editingApp.None?
      ensures old(editingApp).Some? ==>
        apps == ReplaceById(old(apps), old(editingApp).value) && !isDialogOpen && editingApp.None?
      ensures old(Valid()) ==> Valid()
    {
      if editingApp.None? {
        return;
      }
      apps := ReplaceById(apps, editingApp.value);
      isDialogOpen := false;
      editingApp := None;
    }

    /** `handleDelete`, with the answer to the confirmation: on yes, drop
        every tile with the edited tile's id and close the editor. */
    method Delete(confirmed: bool)
      modifies this`apps, this`isDialogOpen, this`editingApp
      ensures old(editingApp).None? || !confirmed ==>
        apps == old(apps) && isDialogOpen == old(isDialogOpen) && editingApp == old(editingApp)
      ensures old(editingApp).Some? && confirmed ==>
        apps == RemoveAppById(old(apps), old(editingApp).value.id) && !isDialogOpen && editingApp.None?
      ensures old(editingApp).Some? && confirmed && old(Valid()) ==>
        forall i :: 0 <= i < |old(apps)| && old(apps)[i].id == old(editingApp).value.id ==>
          apps == old(apps)[..i] + old(apps)[i + 1..]
      ensures old(Valid()) ==> Valid()
    {
      if editingApp.None? {
        return;
      }
      if confirmed {
        RemoveAppByIdExact(apps, editingApp.value.id);
        if Valid() {
          RemoveAppByIdKeepsUnique(apps, editingApp.value.id);
        }
        apps := RemoveAppById(apps, editingApp.value.id);
        isDialogOpen := false;
        editingApp := None;
      }
    }

    /** `resetDefaults`, with the answer to the confirmation. */
    method ResetDefaults(confirmed: bool)
      modifies this`apps
      ensures apps == if confirmed then DEFAULT_APPS else old(apps)
      ensures old(Valid()) ==> Valid()
    {
      DefaultApps();
      if confirmed {
        apps := DEFAULT_APPS;
      }
    }
  }

  /** A quick tap launches the tile's URL; a press held until the timer
      fires opens the editor instead and launches nothing. */
  method PressTile(grid: TileGrid, app: AppLink, heldLong: bool) returns (launch: Option<string>)
    modifies grid
    ensures heldLong ==> launch.None? && grid.editingApp == Some(app) && grid.isDialogOpen && grid.isLongPress
    ensures !heldLong ==> (launch.Some? <==> app.url != "")
    ensures !heldLong ==> grid.editingApp == old(grid.editingApp) && grid.isDialogOpen == old(grid.isDialogOpen) && !grid.isLongPress
    ensures launch.Some? ==> launch.value == app.url
    ensures grid.apps == old(grid.apps) && grid.pressTimer.None?
  {
    grid.StartPress(app);
    if heldLong {
      grid.TimerFired();
    }
    launch := grid.EndPress(app.url);
  }
}
