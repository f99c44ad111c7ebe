/**
 * The DIDL-Lite object kinds: for each class of the library its element tag,
 * its exact `upnp_class` string, its flat list of property definitions and
 * its place in the class hierarchy; the lookup of a kind by class string,
 * specified by a worklist search over the hierarchy and implemented by the
 * same search as a loop.
 */
module Kinds {
  import opened Wrappers
  import Utils

  /** The third component of a property definition: 'R' or 'O'. */
  datatype Cardinality = Required | Optional

  /** A property definition `(namespace alias, location, 'R'|'O')`. */
  datatype PropertyDef = PropertyDef(namespace: string, location: string, cardinality: Cardinality)

  /**
   * `didl_property_def_key`: the key under which an object stores the value
   * of the property.
   */
  function Key(d: PropertyDef): string
  {
    Utils.DidlPropertyDefKey(d.location)
  }

  /** A property definition together with its key. */
  datatype KeyedDef = KeyedDef(def: PropertyDef, key: string)

  /** Each definition paired with the key `didl_property_def_key` gives it. */
  function Keyed(defs: seq<PropertyDef>): (r: seq<KeyedDef>)
    ensures |r| == |defs|
    ensures forall i :: 0 <= i < |r| ==> r[i].def == defs[i] && r[i].key == Key(defs[i])
  {
    seq(|defs|, i requires 0 <= i < |defs| => KeyedDef(defs[i], Key(defs[i])))
  }

  // The definition lists, one per class, each built on the list the class
  // itself extends (which is not always its base class's list).

  const ObjectDefs: seq<PropertyDef> := [
    PropertyDef("didl_lite", "@id", Required),
    PropertyDef("didl_lite", "@parentID", Required),
    PropertyDef("didl_lite", "@restricted", Required),
    PropertyDef("dc", "title", Required),
    PropertyDef("upnp", "class", Required),
    PropertyDef("dc", "creator", Optional),
    PropertyDef("didl_lite", "res", Optional),
    PropertyDef("upnp", "writeStatus", Optional)
  ]

  const ItemDefs: seq<PropertyDef> := ObjectDefs + [
    PropertyDef("didl_lite", "@refID", Optional),
    PropertyDef("upnp", "bookmarkID", Optional)
  ]

  const ImageItemDefs: seq<PropertyDef> := ItemDefs + [
    PropertyDef("upnp", "longDescription", Optional),
    PropertyDef("upnp", "storageMedium", Optional),
    PropertyDef("upnp", "rating", Optional),
    PropertyDef("dc", "description", Optional),
    PropertyDef("dc", "publisher", Optional),
    PropertyDef("dc", "date", Optional),
    PropertyDef("dc", "rights", Optional)
  ]

  const PhotoDefs: seq<PropertyDef> := ImageItemDefs + [
    PropertyDef("upnp", "album", Optional)
  ]

  const AudioItemDefs: seq<PropertyDef> := ItemDefs + [
    PropertyDef("upnp", "genre", Optional),
    PropertyDef("dc", "description", Optional),
    PropertyDef("upnp", "longDescription", Optional),
    PropertyDef("dc", "publisher", Optional),
    PropertyDef("dc", "language", Optional),
    PropertyDef("dc", "relation", Optional),
    PropertyDef("dc", "rights", Optional)
  ]

  const MusicTrackDefs: seq<PropertyDef> := AudioItemDefs + [
    PropertyDef("upnp", "artist", Optional),
    PropertyDef("upnp", "album", Optional),
    PropertyDef("upnp", "originalTrackNumber", Optional),
    PropertyDef("upnp", "playlist", Optional),
    PropertyDef("upnp", "storageMedium", Optional),
    PropertyDef("dc", "contributor", Optional),
    PropertyDef("dc", "date", Optional)
  ]

  const AudioBroadcastDefs: seq<PropertyDef> := AudioItemDefs + [
    PropertyDef("upnp", "region", Optional),
    PropertyDef("upnp", "radioCallSign", Optional),
    PropertyDef("upnp", "radioStationID", Optional),
    PropertyDef("upnp", "radioBand", Optional),
    PropertyDef("upnp", "channelNr", Optional),
    PropertyDef("upnp", "signalStrength", Optional),
    PropertyDef("upnp", "signalLocked", Optional),
    PropertyDef("upnp", "tuned", Optional),
    PropertyDef("upnp", "recordable", Optional)
  ]

  const AudioBookDefs: seq<PropertyDef> := AudioItemDefs + [
    PropertyDef("upnp", "storageMedium", Optional),
    PropertyDef("upnp", "producer", Optional),
    PropertyDef("dc", "contributor", Optional),
    PropertyDef("dc", "date", Optional)
  ]

  const VideoItemDefs: seq<PropertyDef> := ItemDefs + [
    PropertyDef("upnp", "genre", Optional),
    PropertyDef("upnp", "genre@id", Optional),
    PropertyDef("upnp", "genre@type", Optional),
    PropertyDef("upnp", "longDescription", Optional),
    PropertyDef("upnp", "producer", Optional),
    PropertyDef("upnp", "rating", Optional),
    PropertyDef("upnp", "actor", Optional),
    PropertyDef("upnp", "director", Optional),
    PropertyDef("dc", "description", Optional),
    PropertyDef("dc", "publisher", Optional),
    PropertyDef("dc", "language", Optional),
    PropertyDef("dc", "relation", Optional),
    PropertyDef("upnp", "playbackCount", Optional),
    PropertyDef("upnp", "lastPlaybackTime", Optional),
    PropertyDef("upnp", "lastPlaybackPosition", Optional),
    PropertyDef("upnp", "recordedDayOfWeek", Optional),
    PropertyDef("upnp", "srsRecordScheduleID", Optional)
  ]

  const MovieDefs: seq<PropertyDef> := VideoItemDefs + [
    PropertyDef("upnp", "storageMedium", Optional),
    PropertyDef("upnp", "DVDRegionCode", Optional),
    PropertyDef("upnp", "channelName", Optional),
    PropertyDef("upnp", "scheduledStartTime", Optional),
    PropertyDef("upnp", "scheduledEndTime", Optional),
    PropertyDef("upnp", "programTitle", Optional),
    PropertyDef("upnp", "seriesTitle", Optional),
    PropertyDef("upnp", "episodeCount", Optional),
    PropertyDef("upnp", "episodeNr", Optional)
  ]

  const VideoBroadcastDefs: seq<PropertyDef> := VideoItemDefs + [
    PropertyDef("upnp", "icon", Optional),
    PropertyDef("upnp", "region", Optional),
    PropertyDef("upnp", "channelNr", Optional),
    PropertyDef("upnp", "signalStrength", Optional),
    PropertyDef("upnp", "signalLocked", Optional),
    PropertyDef("upnp", "tuned", Optional),
    PropertyDef("upnp", "recordable", Optional),
    PropertyDef("upnp", "callSign", Optional),
    PropertyDef("upnp", "price", Optional),
    PropertyDef("upnp", "payPerView", Optional)
  ]

  const MusicVideoClipDefs: seq<PropertyDef> := VideoItemDefs + [
    PropertyDef("upnp", "artist", Optional),
    PropertyDef("upnp", "storageMedium", Optional),
    PropertyDef("upnp", "album", Optional),
    PropertyDef("upnp", "scheduledStartTime", Optional),
    PropertyDef("upnp", "scheduledStopTime", Optional),
    PropertyDef("dc", "contributor", Optional),
    PropertyDef("dc", "date", Optional)
  ]

  const PlaylistItemDefs: seq<PropertyDef> := ItemDefs + [
    PropertyDef("upnp", "artist", Optional),
    PropertyDef("upnp", "genre", Optional),
    PropertyDef("upnp", "longDescription", Optional),
    PropertyDef("upnp", "storageMedium", Optional),
    PropertyDef("dc", "description", Optional),
    PropertyDef("dc", "date", Optional),
    PropertyDef("dc", "language", Optional)
  ]

  const TextItemDefs: seq<PropertyDef> := ItemDefs + [
    PropertyDef("upnp", "author", Optional),
    PropertyDef("upnp", "res@protection", Optional),
    PropertyDef("upnp", "longDescription", Optional),
    PropertyDef("upnp", "storageMedium", Optional),
    PropertyDef("upnp", "rating", Optional),
    PropertyDef("dc", "description", Optional),
    PropertyDef("dc", "publisher", Optional),
    PropertyDef("dc", "contributor", Optional),
    PropertyDef("dc", "date", Optional),
    PropertyDef("dc", "relation", Optional),
    PropertyDef("dc", "language", Optional),
    PropertyDef("dc", "rights", Optional)
  ]

  const BookmarkItemDefs: seq<PropertyDef> := ItemDefs + [
    PropertyDef("upnp", "bookmarkedObjectID", Required),
    PropertyDef("upnp", "neverPlayable", Optional),
    PropertyDef("upnp", "deviceUDN", Required),
    PropertyDef("upnp", "serviceType", Required),
    PropertyDef("upnp", "serviceId", Required),
    PropertyDef("dc", "date", Optional),
    PropertyDef("dc", "stateVariableCollection", Required)
  ]

  const EpgItemDefs: seq<PropertyDef> := ItemDefs + [
    PropertyDef("upnp", "channelGroupName", Optional),
    PropertyDef("upnp", "channelGroupName@id", Optional),
    PropertyDef("upnp", "epgProviderName", Optional),
    PropertyDef("upnp", "serviceProvider", Optional),
    PropertyDef("upnp", "channelName", Optional),
    PropertyDef("upnp", "channelNr", Optional),
    PropertyDef("upnp", "programTitle", Optional),
    PropertyDef("upnp", "seriesTitle", Optional),
    PropertyDef("upnp", "programID", Optional),
    PropertyDef("upnp", "programID@type", Optional),
    PropertyDef("upnp", "seriesID", Optional),
    PropertyDef("upnp", "seriesID@type", Optional),
    PropertyDef("upnp", "channelID", Optional),
    PropertyDef("upnp", "channelID@type", Optional),
    PropertyDef("upnp", "episodeCount", Optional),
    PropertyDef("upnp", "episodeNumber", Optional),
    PropertyDef("upnp", "programCode", Optional),
    PropertyDef("upnp", "programCode_type", Optional),
    PropertyDef("upnp", "rating", Optional),
    PropertyDef("upnp", "rating@type", Optional),
    PropertyDef("upnp", "episodeType", Optional),
    PropertyDef("upnp", "genre", Optional),
    PropertyDef("upnp", "genre@id", Optional),
    PropertyDef("upnp", "genre@extended", Optional),
    PropertyDef("upnp", "artist", Optional),
    PropertyDef("upnp", "artist@role", Optional),
    PropertyDef("upnp", "actor", Optional),
    PropertyDef("upnp", "actor@role", Optional),
    PropertyDef("upnp", "author", Optional),
    PropertyDef("upnp", "author@role", Optional),
    PropertyDef("upnp", "producer", Optional),
    PropertyDef("upnp", "director", Optional),
    PropertyDef("dc", "publisher", Optional),
    PropertyDef("dc", "contributor", Optional),
    PropertyDef("upnp", "networkAffiliation", Optional),
    PropertyDef("upnp", "price", Optional),
    PropertyDef("upnp", "price@currency", Optional),
    PropertyDef("upnp", "payPerView", Optional),
    PropertyDef("dc", "description", Optional),
    PropertyDef("upnp", "longDescription", Optional),
    PropertyDef("upnp", "icon", Optional),
    PropertyDef("upnp", "region", Optional),
    PropertyDef("dc", "language", Optional),
    PropertyDef("dc", "relation", Optional),
    PropertyDef("upnp", "scheduledStartTime", Optional),
    PropertyDef("upnp", "scheduledEndTime", Optional),
    PropertyDef("upnp", "recordable", Optional)
  ]

  const AudioProgramDefs: seq<PropertyDef> := ItemDefs + [
    PropertyDef("upnp", "radioCallSign", Optional),
    PropertyDef("upnp", "radioStationID", Optional),
    PropertyDef("upnp", "radioBand", Optional)
  ]

  const VideoProgramDefs: seq<PropertyDef> := ItemDefs + [
    PropertyDef("upnp", "price", Optional),
    PropertyDef("upnp", "price@currency", Optional),
    PropertyDef("upnp", "payPerView", Optional)
  ]

  const ContainerDefs: seq<PropertyDef> := ObjectDefs + [
    PropertyDef("didl_lite", "@childCount", Optional),
    PropertyDef("upnp", "createClass", Optional),
    PropertyDef("upnp", "searchClass", Optional),
    PropertyDef("didl_lite", "@searchable", Optional),
    PropertyDef("didl_lite", "@neverPlayable", Optional)
  ]

  const PersonDefs: seq<PropertyDef> := ContainerDefs + [
    PropertyDef("dc", "language", Optional)
  ]

  const MusicArtistDefs: seq<PropertyDef> := ContainerDefs + [
    PropertyDef("upnp", "genre", Optional),
    PropertyDef("upnp", "artistDiscographyURI", Optional)
  ]

  const PlaylistContainerDefs: seq<PropertyDef> := ContainerDefs + [
    PropertyDef("upnp", "artist", Optional),
    PropertyDef("upnp", "genre", Optional),
    PropertyDef("upnp", "longDescription", Optional),
    PropertyDef("upnp", "producer", Optional),
    PropertyDef("upnp", "storageMedium", Optional),
    PropertyDef("dc", "description", Optional),
    PropertyDef("dc", "contributor", Optional),
    PropertyDef("dc", "date", Optional),
    PropertyDef("dc", "language", Optional),
    PropertyDef("dc", "rights", Optional)
  ]

  const AlbumDefs: seq<PropertyDef> := ContainerDefs + [
    PropertyDef("upnp", "storageMedium", Optional),
    PropertyDef("dc", "longDescription", Optional),
    PropertyDef("dc", "description", Optional),
    PropertyDef("dc", "publisher", Optional),
    PropertyDef("dc", "contributor", Optional),
    PropertyDef("dc", "date", Optional),
    PropertyDef("dc", "relation", Optional),
    PropertyDef("dc", "rights", Optional)
  ]

  const MusicAlbumDefs: seq<PropertyDef> := ContainerDefs + [
    PropertyDef("upnp", "artist", Optional),
    PropertyDef("upnp", "genre", Optional),
    PropertyDef("upnp", "producer", Optional),
    PropertyDef("upnp", "albumArtURI", Optional),
    PropertyDef("upnp", "toc", Optional)
  ]

  const PhotoAlbumDefs: seq<PropertyDef> := ContainerDefs + []

  const GenreDefs: seq<PropertyDef> := ContainerDefs + [
    PropertyDef("upnp", "genre", Optional),
    PropertyDef("upnp", "longDescription", Optional),
    PropertyDef("dc", "description", Optional)
  ]

  const MusicGenreDefs: seq<PropertyDef> := ContainerDefs + []

  const MovieGenreDefs: seq<PropertyDef> := ContainerDefs + []

  const ChannelGroupDefs: seq<PropertyDef> := ContainerDefs + [
    PropertyDef("upnp", "channelGroupName", Optional),
    PropertyDef("upnp", "channelGroupName@id", Optional),
    PropertyDef("upnp", "epgProviderName", Optional),
    PropertyDef("upnp", "serviceProvider", Optional),
    PropertyDef("upnp", "icon", Optional),
    PropertyDef("upnp", "region", Optional)
  ]

  const AudioChannelGroupDefs: seq<PropertyDef> := ContainerDefs + []

  const VideoChannelGroupDefs: seq<PropertyDef> := ContainerDefs + []

  const EpgContainerDefs: seq<PropertyDef> := ContainerDefs + [
    PropertyDef("upnp", "channelGroupName", Optional),
    PropertyDef("upnp", "channelGroupName@id", Optional),
    PropertyDef("upnp", "epgProviderName", Optional),
    PropertyDef("upnp", "serviceProvider", Optional),
    PropertyDef("upnp", "channelName", Optional),
    PropertyDef("upnp", "channelNr", Optional),
    PropertyDef("upnp", "channelID", Optional),
    PropertyDef("upnp", "channelID@type", Optional),
    PropertyDef("upnp", "radioCallSign", Optional),
    PropertyDef("upnp", "radioStationID", Optional),
    PropertyDef("upnp", "radioBand", Optional),
    PropertyDef("upnp", "callSign", Optional),
    PropertyDef("upnp", "networkAffiliation", Optional),
    PropertyDef("upnp", "price", Optional),
    PropertyDef("upnp", "price@currency", Optional),
    PropertyDef("upnp", "payPerView", Optional),
    PropertyDef("upnp", "icon", Optional),
    PropertyDef("upnp", "region", Optional),
    PropertyDef("dc", "language", Optional),
    PropertyDef("dc", "relation", Optional),
    PropertyDef("upnp", "dateTimeRange", Optional)
  ]

  const StorageSystemDefs: seq<PropertyDef> := ContainerDefs + [
    PropertyDef("upnp", "storageTotal", Required),
    PropertyDef("upnp", "storageUsed", Required),
    PropertyDef("upnp", "storageFree", Required),
    PropertyDef("upnp", "storageMaxPartition", Required),
    PropertyDef("upnp", "storageMedium", Required)
  ]

  const StorageVolumeDefs: seq<PropertyDef> := ContainerDefs + [
    PropertyDef("upnp", "storageTotal", Required),
    PropertyDef("upnp", "storageUsed", Required),
    PropertyDef("upnp", "storageFree", Required),
    PropertyDef("upnp", "storageMedium", Required)
  ]

  const StorageFolderDefs: seq<PropertyDef> := ContainerDefs + [
    PropertyDef("upnp", "storageUsed", Required)
  ]

  const BookmarkFolderDefs: seq<PropertyDef> := ContainerDefs + [
    PropertyDef("upnp", "genre", Optional),
    PropertyDef("upnp", "longDescription", Optional),
    PropertyDef("dc", "description", Optional)
  ]

  /** Every class of the library except the abstract `DidlObject` base. */
  datatype Kind =
    | Item
    | ImageItem
    | Photo
    | AudioItem
    | MusicTrack
    | AudioBroadcast
    | AudioBook
    | VideoItem
    | Movie
    | VideoBroadcast
    | MusicVideoClip
    | PlaylistItem
    | TextItem
    | BookmarkItem
    | EpgItem
    | AudioProgram
    | VideoProgram
    | Container
    | Person
    | MusicArtist
    | PlaylistContainer
    | Album
    | MusicAlbum
    | PhotoAlbum
    | Genre
    | MusicGenre
    | MovieGenre
    | ChannelGroup
    | AudioChannelGroup
    | VideoChannelGroup
    | EpgContainer
    | StorageSystem
    | StorageVolume
    | StorageFolder
    | BookmarkFolder

  /** The element tag: 'item' for the items, 'container' for the containers. */
  predicate IsContainer(k: Kind)
  {
    match k
    case Container | Person | MusicArtist | PlaylistContainer | Album | MusicAlbum | PhotoAlbum | Genre | MusicGenre | MovieGenre | ChannelGroup | AudioChannelGroup | VideoChannelGroup | EpgContainer | StorageSystem | StorageVolume | StorageFolder | BookmarkFolder => true
    case _ => false
  }

  function Tag(k: Kind): string
  {
    if IsContainer(k) then "container" else "item"
  }

  /** The exact `upnp_class` string of each class. */
  function UpnpClass(k: Kind): string
  {
    match k
      case Item => "object.item"
      case ImageItem => "object.item.imageItem"
      case Photo => "object.item.imageItem.photo"
      case AudioItem => "object.item.audioItem"
      case MusicTrack => "object.item.audioItem.musicTrack"
      case AudioBroadcast => "object.item.audioItem.audioBroadcast"
      case AudioBook => "object.item.audioItem.audioBook"
      case VideoItem => "object.item.videoItem"
      case Movie => "object.item.videoItem.movie"
      case VideoBroadcast => "object.item.videoItem.videoBroadcast"
      case MusicVideoClip => "object.item.videoItem.musicVideoClip"
      case PlaylistItem => "object.item.playlistItem"
      case TextItem => "object.item.textItem"
      case BookmarkItem => "object.item.bookmarkItem"
      case EpgItem => "object.item.epgItem"
      case AudioProgram => "object.item.epgItem.audioProgram"
      case VideoProgram => "object.item.epgItem.videoProgram"
      case Container => "object.container"
      case Person => "object.container.person"
      case MusicArtist => "object.container.person.musicArtist"
      case PlaylistContainer => "object.container.playlistContainer"
      case Album => "object.container.album"
      case MusicAlbum => "object.container.album.musicAlbum"
      case PhotoAlbum => "object.container.album.photoAlbum"
      case Genre => "object.container.genre"
      case MusicGenre => "object.container.genre.musicGenre"
      case MovieGenre => "object.container.genre.movieGenre"
      case ChannelGroup => "object.container.channelGroup"
      case AudioChannelGroup => "object.container.channelGroup.audioChannelGroup"
      case VideoChannelGroup => "object.container.channelGroup.videoChannelGroup"
      case EpgContainer => "object.container.epgContainer"
      case StorageSystem => "object.container.storageSystem"
      case StorageVolume => "object.container.storageVolume"
      case StorageFolder => "object.container.storageFolder"
      case BookmarkFolder => "object.container.bookmarkFolder"
  }

  /** The `didl_properties_defs` of each class. */
  function Defs(k: Kind): seq<PropertyDef>
  {
    match k
      case Item => ItemDefs
      case ImageItem => ImageItemDefs
      case Photo => PhotoDefs
      case AudioItem => AudioItemDefs
      case MusicTrack => MusicTrackDefs
      case AudioBroadcast => AudioBroadcastDefs
      case AudioBook => AudioBookDefs
      case VideoItem => VideoItemDefs
      case Movie => MovieDefs
      case VideoBroadcast => VideoBroadcastDefs
      case MusicVideoClip => MusicVideoClipDefs
      case PlaylistItem => PlaylistItemDefs
      case TextItem => TextItemDefs
      case BookmarkItem => BookmarkItemDefs
      case EpgItem => EpgItemDefs
      case AudioProgram => AudioProgramDefs
      case VideoProgram => VideoProgramDefs
      case Container => ContainerDefs
      case Person => PersonDefs
      case MusicArtist => MusicArtistDefs
      case PlaylistContainer => PlaylistContainerDefs
      case Album => AlbumDefs
      case MusicAlbum => MusicAlbumDefs
      case PhotoAlbum => PhotoAlbumDefs
      case Genre => GenreDefs
      case MusicGenre => MusicGenreDefs
      case MovieGenre => MovieGenreDefs
      case ChannelGroup => ChannelGroupDefs
      case AudioChannelGroup => AudioChannelGroupDefs
      case VideoChannelGroup => VideoChannelGroupDefs
      case EpgContainer => EpgContainerDefs
      case StorageSystem => StorageSystemDefs
      case StorageVolume => StorageVolumeDefs
      case StorageFolder => StorageFolderDefs
      case BookmarkFolder => BookmarkFolderDefs
  }

  // ---------------------------------------------------------------------
  // The class hierarchy

  /** The base class, or None when the base is the `DidlObject` root. */
  function Parent(k: Kind): Option<Kind>
  {
    match k
      case Item => None
      case ImageItem => Some(Item)
      case Photo => Some(ImageItem)
      case AudioItem => Some(Item)
      case MusicTrack => Some(AudioItem)
      case AudioBroadcast => Some(AudioItem)
      case AudioBook => Some(AudioItem)
      case VideoItem => Some(Item)
      case Movie => Some(VideoItem)
      case VideoBroadcast => Some(VideoItem)
      case MusicVideoClip => Some(VideoItem)
      case PlaylistItem => Some(Item)
      case TextItem => Some(Item)
      case BookmarkItem => Some(Item)
      case EpgItem => Some(Item)
      case AudioProgram => Some(EpgItem)
      case VideoProgram => Some(EpgItem)
      case Container => None
      case Person => Some(Container)
      case MusicArtist => Some(Person)
      case PlaylistContainer => Some(Container)
      case Album => Some(Container)
      case MusicAlbum => Some(Album)
      case PhotoAlbum => Some(Album)
      case Genre => Some(Container)
      case MusicGenre => Some(Genre)
      case MovieGenre => Some(Genre)
      case ChannelGroup => Some(Container)
      case AudioChannelGroup => Some(ChannelGroup)
      case VideoChannelGroup => Some(ChannelGroup)
      case EpgContainer => Some(Container)
      case StorageSystem => Some(Container)
      case StorageVolume => Some(Container)
      case StorageFolder => Some(Container)
      case BookmarkFolder => Some(Container)
  }

  /** `__subclasses__()`: the classes whose base is `k`, in order of definition. */
  function Subclasses(k: Kind): seq<Kind>
  {
    match k
      case Item => [ImageItem, AudioItem, VideoItem, PlaylistItem, TextItem, BookmarkItem, EpgItem]
      case ImageItem => [Photo]
      case Photo => []
      case AudioItem => [MusicTrack, AudioBroadcast, AudioBook]
      case MusicTrack => []
      case AudioBroadcast => []
      case AudioBook => []
      case VideoItem => [Movie, VideoBroadcast, MusicVideoClip]
      case Movie => []
      case VideoBroadcast => []
      case MusicVideoClip => []
      case PlaylistItem => []
      case TextItem => []
      case BookmarkItem => []
      case EpgItem => [AudioProgram, VideoProgram]
      case AudioProgram => []
      case VideoProgram => []
      case Container => [Person, PlaylistContainer, Album, Genre, ChannelGroup, EpgContainer, StorageSystem, StorageVolume, StorageFolder, BookmarkFolder]
      case Person => [MusicArtist]
      case MusicArtist => []
      case PlaylistContainer => []
      case Album => [MusicAlbum, PhotoAlbum]
      case MusicAlbum => []
      case PhotoAlbum => []
      case Genre => [MusicGenre, MovieGenre]
      case MusicGenre => []
      case MovieGenre => []
      case ChannelGroup => [AudioChannelGroup, VideoChannelGroup]
      case AudioChannelGroup => []
      case VideoChannelGroup => []
      case EpgContainer => []
      case StorageSystem => []
      case StorageVolume => []
      case StorageFolder => []
      case BookmarkFolder => []
  }

  /** `DidlObject.__subclasses__()`. */
  const Roots: seq<Kind> := [Item, Container]

  /** Distance from the root of the hierarchy, a termination measure for `Parent`. */
  function Depth(k: Kind): nat
  {
    match k
    case Item => 0
    case ImageItem => 1
    case Photo => 2
    case AudioItem => 1
    case MusicTrack => 2
    case AudioBroadcast => 2
    case AudioBook => 2
    case VideoItem => 1
    case Movie => 2
    case VideoBroadcast => 2
    case MusicVideoClip => 2
    case PlaylistItem => 1
    case TextItem => 1
    case BookmarkItem => 1
    case EpgItem => 1
    case AudioProgram => 2
    case VideoProgram => 2
    case Container => 0
    case Person => 1
    case MusicArtist => 2
    case PlaylistContainer => 1
    case Album => 1
    case MusicAlbum => 2
    case PhotoAlbum => 2
    case Genre => 1
    case MusicGenre => 2
    case MovieGenre => 2
    case ChannelGroup => 1
    case AudioChannelGroup => 2
    case VideoChannelGroup => 2
    case EpgContainer => 1
    case StorageSystem => 1
    case StorageVolume => 1
    case StorageFolder => 1
    case BookmarkFolder => 1
  }

  // ---------------------------------------------------------------------
  // The class hierarchy, as the worklist search sees it

  /** `t` is `q` or one of its (transitive) subclasses. */
  ghost predicate InSubtree(t: Kind, q: Kind)
    decreases Depth(t)
  {
    t == q || (Parent(t).Some? && Depth(Parent(t).value) < Depth(t) && InSubtree(Parent(t).value, q))
  }

  lemma ParentDepth(k: Kind)
    ensures Parent(k).Some? ==> Depth(k) == Depth(Parent(k).value) + 1
  {
  }

  /** Every class is among the subclasses of its base. */
  lemma SubclassOfParent(k: Kind)
    ensures Parent(k).Some? ==> k in Subclasses(Parent(k).value)
    ensures Parent(k).None? ==> k in Roots
  {
    if IsContainer(k) {
      ContainerSubclassOfParent(k);
    } else {
      ItemSubclassOfParent(k);
    }
  }

  lemma ItemSubclassOfParent(k: Kind)
    requires !IsContainer(k)
    ensures Parent(k).Some? ==> k in Subclasses(Parent(k).value)
    ensures Parent(k).None? ==> k in Roots
  {
  }

  lemma ContainerSubclassOfParent(k: Kind)
    requires IsContainer(k)
    ensures Parent(k).Some? ==> k in Subclasses(Parent(k).value)
    ensures Parent(k).None? ==> k in Roots
  {
  }

  /** `Parent` inverts `Subclasses`. */
  lemma SubclassParent(k: Kind)
    ensures forall i :: 0 <= i < |Subclasses(k)| ==> Parent(Subclasses(k)[i]) == Some(k)
  {
    if IsContainer(k) {
      ContainerSubclassParent(k);
    } else {
      ItemSubclassParent(k);
    }
  }

  lemma ItemSubclassParent(k: Kind)
    requires !IsContainer(k)
    ensures forall i :: 0 <= i < |Subclasses(k)| ==> Parent(Subclasses(k)[i]) == Some(k)
  {
  }

  lemma ContainerSubclassParent(k: Kind)
    requires IsContainer(k)
    ensures forall i :: 0 <= i < |Subclasses(k)| ==> Parent(Subclasses(k)[i]) == Some(k)
  {
  }

  /** Every kind lies below one of the two roots. */
  lemma RootsCover(t: Kind)
    ensures exists q :: q in Roots && InSubtree(t, q)
  {
    ParentDepth(t);
    SubclassOfParent(t);
    if Parent(t).Some? {
      var p := Parent(t).value;
      ParentDepth(p);
      SubclassOfParent(p);
      if Parent(p).Some? {
        var g := Parent(p).value;
        ParentDepth(g);
        SubclassOfParent(g);
        assert Parent(g).None?;
        assert InSubtree(p, g);
        assert InSubtree(t, g);
      } else {
        assert InSubtree(t, p);
      }
    } else {
      assert InSubtree(t, t);
    }
  }

  /** A proper descendant of `k` lies in the subtree of one of `k`'s subclasses. */
  lemma {:induction false} SubtreeStep(t: Kind, k: Kind)
    requires InSubtree(t, k) && t != k
    ensures exists s :: s in Subclasses(k) && InSubtree(t, s)
    decreases Depth(t)
  {
    var p := Parent(t).value;
    SubclassOfParent(t);
    if p == k {
      assert InSubtree(t, t);
    } else {
      SubtreeStep(p, k);
      var s :| s in Subclasses(k) && InSubtree(p, s);
      assert InSubtree(t, s);
    }
  }

  /** The subclasses of a class lie one level below it, and the hierarchy is three levels deep. */
  lemma SubclassDepth(k: Kind)
    ensures forall i :: 0 <= i < |Subclasses(k)| ==> Depth(Subclasses(k)[i]) == Depth(k) + 1
    ensures Depth(k) <= 2
    ensures Depth(k) == 2 ==> Subclasses(k) == []
  {
    SubclassParent(k);
    forall i | 0 <= i < |Subclasses(k)|
      ensures Depth(Subclasses(k)[i]) == Depth(k) + 1
    {
      ParentDepth(Subclasses(k)[i]);
      DepthBound(Subclasses(k)[i]);
    }
    DepthBound(k);
  }

  lemma DepthBound(k: Kind)
    ensures Depth(k) <= 2
  {
  }

  /** Number of classes at depth `d` in `qs`. */
  function CountAtDepth(qs: seq<Kind>, d: nat): nat
  {
    if qs == [] then 0 else (if Depth(qs[0]) == d then 1 else 0) + CountAtDepth(qs[1..], d)
  }

  lemma {:induction false} CountAtDepthAppend(a: seq<Kind>, b: seq<Kind>, d: nat)
    ensures CountAtDepth(a + b, d) == CountAtDepth(a, d) + CountAtDepth(b, d)
    decreases |a|
  {
    if a == [] {
      assert a + b == b;
    } else {
      assert (a + b)[1..] == a[1..] + b;
      CountAtDepthAppend(a[1..], b, d);
    }
  }

  lemma {:induction false} CountAtOtherDepth(qs: seq<Kind>, d: nat, e: nat)
    requires forall i :: 0 <= i < |qs| ==> Depth(qs[i]) == e
    requires d != e
    ensures CountAtDepth(qs, d) == 0
    decreases |qs|
  {
    if qs != [] {
      CountAtOtherDepth(qs[1..], d, e);
    }
  }

  /** Replacing a class by its subclasses lowers the depth profile of the worklist. */
  lemma PopDecreases(rest: seq<Kind>, k: Kind)
    ensures var o, n := rest + [k], rest + Subclasses(k);
      CountAtDepth(n, 0) < CountAtDepth(o, 0) ||
      (CountAtDepth(n, 0) == CountAtDepth(o, 0) &&
       (CountAtDepth(n, 1) < CountAtDepth(o, 1) ||
        (CountAtDepth(n, 1) == CountAtDepth(o, 1) && CountAtDepth(n, 2) < CountAtDepth(o, 2))))
  {
    SubclassDepth(k);
    var d := Depth(k);
    var subs := Subclasses(k);
    forall e: nat | e <= 2
      ensures CountAtDepth(rest + [k], e) == CountAtDepth(rest, e) + (if e == d then 1 else 0)
      ensures CountAtDepth(rest + subs, e) == CountAtDepth(rest, e) + CountAtDepth(subs, e)
    {
      CountAtDepthAppend(rest, [k], e);
      CountAtDepthAppend(rest, subs, e);
      assert [k][1..] == [];
    }
    forall e: nat | e <= d
      ensures CountAtDepth(subs, e) == 0
    {
      CountAtOtherDepth(subs, e, d + 1);
    }
  }

  // ---------------------------------------------------------------------
  // Lookup by class string (`type_by_upnp_class`)

  /**
   * The search `type_by_upnp_class` performs from the worklist `queue`: pop
   * the last class, push its subclasses, and stop at the first popped class
   * whose class string is exactly (case-sensitively) `c`.
   */
  function Search(queue: seq<Kind>, c: string): Option<Kind>
    decreases CountAtDepth(queue, 0), CountAtDepth(queue, 1), CountAtDepth(queue, 2)
  {
    if queue == [] then None
    else
      var k, rest := queue[|queue| - 1], queue[..|queue| - 1];
      SplitLast(queue);
      PopDecreases(rest, k);
      if UpnpClass(k) == c then Some(k) else Search(rest + Subclasses(k), c)
  }

  /** The kind `type_by_upnp_class(c)` returns; None for no kind. */
  function KindByClass(c: string): Option<Kind>
  {
    Search(Roots, c)
  }

  lemma {:induction false} SearchExact(queue: seq<Kind>, c: string)
    ensures Search(queue, c).Some? ==> UpnpClass(Search(queue, c).value) == c
    decreases CountAtDepth(queue, 0), CountAtDepth(queue, 1), CountAtDepth(queue, 2)
  {
    if queue != [] {
      var k, rest := queue[|queue| - 1], queue[..|queue| - 1];
      SplitLast(queue);
      PopDecreases(rest, k);
      if UpnpClass(k) != c {
        SearchExact(rest + Subclasses(k), c);
      }
    }
  }

  /** A non-empty worklist is its front followed by its last class. */
  lemma SplitLast(queue: seq<Kind>)
    requires queue != []
    ensures queue == queue[..|queue| - 1] + [queue[|queue| - 1]]
  {
  }

  /** One step of the search: pop the last class, then test it or continue. */
  lemma SearchPop(queue: seq<Kind>, c: string)
    requires queue != []
    ensures var k, rest := queue[|queue| - 1], queue[..|queue| - 1];
      Search(queue, c) == if UpnpClass(k) == c then Some(k) else Search(rest + Subclasses(k), c)
  {
  }

  /** Popping `k` keeps every proper descendant of the worklist covered. */
  lemma CoverStep(rest: seq<Kind>, k: Kind, t: Kind, q: Kind) returns (s: Kind)
    requires q in rest + [k] && InSubtree(t, q) && t != k
    ensures s in rest + Subclasses(k) && InSubtree(t, s)
  {
    if q == k {
      SubtreeStep(t, k);
      s :| s in Subclasses(k) && InSubtree(t, s);
    } else {
      s := q;
    }
  }

  /** The search finds something whenever a class in the subtree of the worklist matches. */
  lemma {:induction false} SearchComplete(queue: seq<Kind>, c: string, t: Kind, q: Kind)
    requires UpnpClass(t) == c && q in queue && InSubtree(t, q)
    ensures Search(queue, c).Some?
    decreases CountAtDepth(queue, 0), CountAtDepth(queue, 1), CountAtDepth(queue, 2)
  {
    var k, rest := queue[|queue| - 1], queue[..|queue| - 1];
    SplitLast(queue);
    PopDecreases(rest, k);
    SearchPop(queue, c);
    if UpnpClass(k) != c {
      var s := CoverStep(rest, k, t, q);
      SearchComplete(rest + Subclasses(k), c, t, s);
    }
  }

  /** A kind found for `c` has exactly the class string `c`. */
  lemma KindByClassExact(c: string)
    ensures KindByClass(c).Some? ==> UpnpClass(KindByClass(c).value) == c
  {
    SearchExact(Roots, c);
  }

  /** The lookup fails exactly when no kind has the class string `c`. */
  lemma KindByClassNone(c: string)
    ensures KindByClass(c).None? <==> forall k :: UpnpClass(k) != c
  {
    KindByClassExact(c);
    forall t | UpnpClass(t) == c
      ensures KindByClass(c).Some?
    {
      RootsCover(t);
      var q :| q in Roots && InSubtree(t, q);
      SearchComplete(Roots, c, t, q);
    }
  }

  /**
   * Reads a kind back from its class string by the length and at most two
   * characters; the lemma below shows it inverts `UpnpClass`.
   */
  ghost function ClassKind(c: string): Kind
  {
    var n := |c|;
    if n == 11 then Item
    else if n == 16 then Container
    else if n == 19 then EpgItem
    else if n == 20 then TextItem
    else if n == 21 then (if c[12] == 'i' then ImageItem else if c[12] == 'a' then AudioItem else VideoItem)
    else if n == 22 then (if c[17] == 'a' then Album else Genre)
    else if n == 23 then Person
    else if n == 24 then (if c[12] == 'p' then PlaylistItem else BookmarkItem)
    else if n == 27 then (if c[12] == 'i' then Photo else Movie)
    else if n == 29 then (if c[17] == 'c' then ChannelGroup else EpgContainer)
    else if n == 30 then (if c[24] == 'S' then StorageSystem else if c[24] == 'V' then StorageVolume else StorageFolder)
    else if n == 31 then (if c[7] == 'i' then AudioBook else BookmarkFolder)
    else if n == 32 then (if c[20] == 'm' then MusicTrack else if c[20] == 'a' then AudioProgram else VideoProgram)
    else if n == 33 then
      (if c[17] == 'a' then (if c[24] == 'u' then MusicAlbum else PhotoAlbum)
       else (if c[24] == 'u' then MusicGenre else MovieGenre))
    else if n == 34 then PlaylistContainer
    else if n == 35 then MusicArtist
    else if n == 36 then (if c[22] == 'a' then AudioBroadcast else if c[22] == 'v' then VideoBroadcast else MusicVideoClip)
    else if n == 47 then (if c[30] == 'a' then AudioChannelGroup else VideoChannelGroup)
    else Item
  }

  /** `ClassKind` reads back the item root and the image items. */
  lemma ClassKindImage(k: Kind)
    requires k == Item || k == ImageItem || k == Photo
    ensures ClassKind(UpnpClass(k)) == k
  {
  }

  /** `ClassKind` reads back the audio items. */
  lemma ClassKindAudio(k: Kind)
    requires k == AudioItem || k == MusicTrack || k == AudioBroadcast || k == AudioBook
    ensures ClassKind(UpnpClass(k)) == k
  {
  }

  /** `ClassKind` reads back the video items. */
  lemma ClassKindVideo(k: Kind)
    requires k == VideoItem || k == Movie || k == VideoBroadcast || k == MusicVideoClip
    ensures ClassKind(UpnpClass(k)) == k
  {
  }

  /** `ClassKind` reads back the remaining direct item subclasses. */
  lemma ClassKindOtherItem(k: Kind)
    requires k == PlaylistItem || k == TextItem || k == BookmarkItem
    ensures ClassKind(UpnpClass(k)) == k
  {
  }

  /** `ClassKind` reads back the EPG items. */
  lemma ClassKindEpgItem(k: Kind)
    requires k == EpgItem || k == AudioProgram || k == VideoProgram
    ensures ClassKind(UpnpClass(k)) == k
  {
  }

  /** `ClassKind` reads back the container root, persons and playlists. */
  lemma ClassKindPerson(k: Kind)
    requires k == Container || k == Person || k == MusicArtist || k == PlaylistContainer
    ensures ClassKind(UpnpClass(k)) == k
  {
  }

  /** `ClassKind` reads back the albums. */
  lemma ClassKindAlbum(k: Kind)
    requires k == Album || k == MusicAlbum || k == PhotoAlbum
    ensures ClassKind(UpnpClass(k)) == k
  {
  }

  /** `ClassKind` reads back the genres. */
  lemma ClassKindGenre(k: Kind)
    requires k == Genre || k == MusicGenre || k == MovieGenre
    ensures ClassKind(UpnpClass(k)) == k
  {
  }

  /** `ClassKind` reads back the channel groups. */
  lemma ClassKindChannel(k: Kind)
    requires k == ChannelGroup || k == AudioChannelGroup || k == VideoChannelGroup
    ensures ClassKind(UpnpClass(k)) == k
  {
  }

  /** `ClassKind` reads back the storage containers. */
  lemma ClassKindStorage(k: Kind)
    requires k == StorageSystem || k == StorageVolume || k == StorageFolder
    ensures ClassKind(UpnpClass(k)) == k
  {
  }

  /** `ClassKind` reads back the EPG and bookmark containers. */
  lemma ClassKindFolder(k: Kind)
    requires k == EpgContainer || k == BookmarkFolder
    ensures ClassKind(UpnpClass(k)) == k
  {
  }

  /** `ClassKind` inverts `UpnpClass`. */
  lemma ClassKindOfClass(k: Kind)
    ensures ClassKind(UpnpClass(k)) == k
  {
    match k
      case Item => ClassKindImage(k);
      case ImageItem => ClassKindImage(k);
      case Photo => ClassKindImage(k);
      case AudioItem => ClassKindAudio(k);
      case MusicTrack => ClassKindAudio(k);
      case AudioBroadcast => ClassKindAudio(k);
      case AudioBook => ClassKindAudio(k);
      case VideoItem => ClassKindVideo(k);
      case Movie => ClassKindVideo(k);
      case VideoBroadcast => ClassKindVideo(k);
      case MusicVideoClip => ClassKindVideo(k);
      case PlaylistItem => ClassKindOtherItem(k);
      case TextItem => ClassKindOtherItem(k);
      case BookmarkItem => ClassKindOtherItem(k);
      case EpgItem => ClassKindEpgItem(k);
      case AudioProgram => ClassKindEpgItem(k);
      case VideoProgram => ClassKindEpgItem(k);
      case Container => ClassKindPerson(k);
      case Person => ClassKindPerson(k);
      case MusicArtist => ClassKindPerson(k);
      case PlaylistContainer => ClassKindPerson(k);
      case Album => ClassKindAlbum(k);
      case MusicAlbum => ClassKindAlbum(k);
      case PhotoAlbum => ClassKindAlbum(k);
      case Genre => ClassKindGenre(k);
      case MusicGenre => ClassKindGenre(k);
      case MovieGenre => ClassKindGenre(k);
      case ChannelGroup => ClassKindChannel(k);
      case AudioChannelGroup => ClassKindChannel(k);
      case VideoChannelGroup => ClassKindChannel(k);
      case EpgContainer => ClassKindFolder(k);
      case StorageSystem => ClassKindStorage(k);
      case StorageVolume => ClassKindStorage(k);
      case StorageFolder => ClassKindStorage(k);
      case BookmarkFolder => ClassKindFolder(k);
  }

  /** No two kinds share a class string. */
  lemma UpnpClassInjective(a: Kind, b: Kind)
    requires UpnpClass(a) == UpnpClass(b)
    ensures a == b
  {
    ClassKindOfClass(a);
    ClassKindOfClass(b);
  }

  /** Every kind's own class string finds that very kind. */
  lemma KindByClassFinds(k: Kind)
    ensures KindByClass(UpnpClass(k)) == Some(k)
  {
    KindByClassNone(UpnpClass(k));
    KindByClassExact(UpnpClass(k));
    UpnpClassInjective(KindByClass(UpnpClass(k)).value, k);
  }

  /** No kind's class string is the bare root `object`. */
  lemma ClassNotObject(k: Kind)
    ensures UpnpClass(k) != "object"
  {
    match k
      case Item =>
      case ImageItem =>
      case Photo =>
      case AudioItem =>
      case MusicTrack =>
      case AudioBroadcast =>
      case AudioBook =>
      case VideoItem =>
      case Movie =>
      case VideoBroadcast =>
      case MusicVideoClip =>
      case PlaylistItem =>
      case TextItem =>
      case BookmarkItem =>
      case EpgItem =>
      case AudioProgram =>
      case VideoProgram =>
      case Container =>
      case Person =>
      case MusicArtist =>
      case PlaylistContainer =>
      case Album =>
      case MusicAlbum =>
      case PhotoAlbum =>
      case Genre =>
      case MusicGenre =>
      case MovieGenre =>
      case ChannelGroup =>
      case AudioChannelGroup =>
      case VideoChannelGroup =>
      case EpgContainer =>
      case StorageSystem =>
      case StorageVolume =>
      case StorageFolder =>
      case BookmarkFolder =>
  }

  /** No kind's class string is empty. */
  lemma ClassNotEmpty(k: Kind)
    ensures UpnpClass(k) != ""
  {
    match k {
      case Item =>
      case ImageItem =>
      case Photo =>
      case AudioItem =>
      case MusicTrack =>
      case AudioBroadcast =>
      case AudioBook =>
      case VideoItem =>
      case Movie =>
      case VideoBroadcast =>
      case MusicVideoClip =>
      case PlaylistItem =>
      case TextItem =>
      case BookmarkItem =>
      case EpgItem =>
      case AudioProgram =>
      case VideoProgram =>
      case Container =>
      case Person =>
      case MusicArtist =>
      case PlaylistContainer =>
      case Album =>
      case MusicAlbum =>
      case PhotoAlbum =>
      case Genre =>
      case MusicGenre =>
      case MovieGenre =>
      case ChannelGroup =>
      case AudioChannelGroup =>
      case VideoChannelGroup =>
      case EpgContainer =>
      case StorageSystem =>
      case StorageVolume =>
      case StorageFolder =>
      case BookmarkFolder =>
    }
  }

  /** The root class string `object` names no kind. */
  lemma KindByClassObject()
    ensures KindByClass("object") == None
  {
    forall k ensures UpnpClass(k) != "object" {
      ClassNotObject(k);
    }
    KindByClassNone("object");
  }

  /**
   * `type_by_upnp_class`: a depth-first search of the class hierarchy with a
   * worklist, popping from the end and pushing each popped class's
   * subclasses.
   */
  method TypeByUpnpClass(c: string) returns (r: Option<Kind>)
    ensures r == KindByClass(c)
  {
    var queue := Roots;
    while queue != []
      invariant Search(queue, c) == KindByClass(c)
      decreases CountAtDepth(queue, 0), CountAtDepth(queue, 1), CountAtDepth(queue, 2)
    {
      var k := queue[|queue| - 1];
      var rest := queue[..|queue| - 1];
      SplitLast(queue);
      PopDecreases(rest, k);
      SearchPop(queue, c);
      queue := rest + Subclasses(k);
      if UpnpClass(k) == c {
        return Some(k);
      }
    }
    return None;
  }
}
