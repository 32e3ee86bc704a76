/** Model of core/orientation.py: the nineteen orientations, each with a
  * name, a side ('PORT', 'STBD' or 'NONE') and a short label. */
module Orientations {
  import W = Wrappers

  datatype Orientation = None | Port | Cntr | Stbd | Fwd | Mid | Aft | Psid | Ssid
                       | Pfwd | Sfwd | Pmid | Smid | Paft | Saft | Mast | Cam | Pir | All

  /** The members in definition order, as `for o in Orientation` visits
    * them. */
  const Members: seq<Orientation> := [None, Port, Cntr, Stbd, Fwd, Mid, Aft, Psid, Ssid,
                                      Pfwd, Sfwd, Pmid, Smid, Paft, Saft, Mast, Cam, Pir, All]

  /** The number in each definition tuple. */
  function Number(o: Orientation): nat {
    match o
    case None => 0  case Port => 1  case Cntr => 2  case Stbd => 3  case Fwd => 4
    case Mid => 5   case Aft => 6   case Psid => 7  case Ssid => 8  case Pfwd => 9
    case Sfwd => 10 case Pmid => 11 case Smid => 12 case Paft => 13 case Saft => 14
    case Mast => 15 case Cam => 16  case Pir => 17  case All => 18
  }

  /** `name`: never shorter than the label, and with the same first
    * letter. */
  function Name(o: Orientation): (r: string)
    ensures |Label(o)| <= |r| && r[0] == Label(o)[0]
  {
    match o
    case None => "none"        case Port => "port"           case Cntr => "center"
    case Stbd => "starboard"   case Fwd => "fwd"             case Mid => "mid"
    case Aft => "aft"          case Psid => "port-side"      case Ssid => "stbd-side"
    case Pfwd => "port-fwd"    case Sfwd => "starboard-fwd"  case Pmid => "port-mid"
    case Smid => "starboard-mid" case Paft => "port-aft"     case Saft => "starboard-aft"
    case Mast => "mast"        case Cam => "camera"          case Pir => "pir"
    case All => "all"
  }

  /** The side string of each definition tuple. */
  function SideName(o: Orientation): string {
    match o
    case Port | Psid | Pfwd | Pmid | Paft => "PORT"
    case Stbd | Ssid | Sfwd | Smid | Saft => "STBD"
    case _ => "NONE"
  }

  /** `label`: a short tag of three or four letters. */
  function Label(o: Orientation): (r: string)
    ensures 3 <= |r| <= 4
  {
    match o
    case None => "none" case Port => "port" case Cntr => "cntr" case Stbd => "stbd"
    case Fwd => "fwd"   case Mid => "mid"   case Aft => "aft"   case Psid => "psid"
    case Ssid => "ssid" case Pfwd => "pfwd" case Sfwd => "sfwd" case Pmid => "pmid"
    case Smid => "smid" case Paft => "paft" case Saft => "saft" case Mast => "mast"
    case Cam => "cam"   case Pir => "pir"   case All => "all"
  }

  /** `side`: PORT for a 'PORT' side, STBD for a 'STBD' side, NONE for
    * everything else. */
  function Side(o: Orientation): (r: Orientation)
    ensures SideName(o) == "PORT" ==> r == Port
    ensures SideName(o) == "STBD" ==> r == Stbd
    ensures SideName(o) != "PORT" && SideName(o) != "STBD" ==> r == None
    ensures r in {Port, Stbd, None}
  {
    if SideName(o) == "PORT" then Port
    else if SideName(o) == "STBD" then Stbd
    else None
  }

  /** A side is its own side: taking the side twice changes nothing more. */
  lemma SideIdempotent(o: Orientation)
    ensures Side(Side(o)) == Side(o)
  {
  }

  /** The first of `members` whose label is `text`. */
  function FindLabel(text: string, members: seq<Orientation>): (r: W.Option<Orientation>)
    ensures r.Some? ==> r.value in members && Label(r.value) == text
    ensures r.None? <==> forall o :: o in members ==> Label(o) != text
  {
    if members == [] then W.None
    else if Label(members[0]) == text then W.Some(members[0])
    else FindLabel(text, members[1..])
  }

  /** `from_label(label)`: the orientation with that label, or none. */
  function FromLabel(text: string): (r: W.Option<Orientation>)
    ensures r.Some? ==> Label(r.value) == text
    ensures r.None? ==> forall o: Orientation :: Label(o) != text
  {
    MembersComplete();
    FindLabel(text, Members)
  }

  /** Every orientation is a member. */
  lemma MembersComplete()
    ensures forall o: Orientation :: o in Members
  {
    forall o: Orientation
      ensures o in Members
    {
      assert Members[Number(o)] == o;
    }
  }

  /** No two orientations share a label. */
  lemma LabelsDistinct(o: Orientation, p: Orientation)
    ensures Label(o) == Label(p) ==> o == p
  {
    if Label(o) == Label(p) {
      match o
      case None => case Port => case Cntr => case Stbd => case Fwd =>
      case Mid => case Aft => case Psid => case Ssid => case Pfwd =>
      case Sfwd => case Pmid => case Smid => case Paft => case Saft =>
      case Mast => case Cam => case Pir => case All =>
    }
  }

  /** Looking up an orientation's own label gives that orientation back. */
  lemma FromLabelOfLabel(o: Orientation)
    ensures FromLabel(Label(o)) == W.Some(o)
  {
    var r := FromLabel(Label(o));
    MembersComplete();
    LabelsDistinct(o, r.value);
  }
}
