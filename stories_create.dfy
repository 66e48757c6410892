/** The story-creation route: the user id and the file list are checked,
    then every uploaded file becomes one story item. Random UUIDs and the
    clock are parameters; every saved file gets the placeholder URL. */
module StoriesCreate {
  import opened Strings

  /** An uploaded file, reduced to its MIME type. */
  datatype UploadFile = UploadFile(name: string, mimeType: string)

  datatype ItemType = ImageItem | VideoItem

  /** `duration` is in seconds; 0 stands for `undefined`, which only images have. */
  datatype StoryItem = StoryItem(id: string, url: string, itemType: ItemType, duration: int)

  datatype Story = Story(
    id: string,
    userId: string,
    items: seq<StoryItem>,
    createdAt: string,
    category: string,
    downloadable: bool,
    isAdult: bool)

  datatype CreateError = MissingUserId | NoFiles | TooManyFiles | Failed

  datatype Response = Rejected(error: CreateError) | Created(story: Story)

  const MaxFiles: nat := 10
  const PlaceholderUrl: string := "/placeholder.jpg"

  predicate IsVideo(f: UploadFile)
  {
    StartsWith(f.mimeType, "video/")
  }

  /** The item made from one file. */
  function ItemOf(f: UploadFile, id: string): (item: StoryItem)
    ensures item.itemType == VideoItem <==> IsVideo(f)
    ensures item.duration == (if IsVideo(f) then 10 else 0)
    ensures item.id == id && item.url == PlaceholderUrl
  {
    if IsVideo(f) then StoryItem(id, PlaceholderUrl, VideoItem, 10)
    else StoryItem(id, PlaceholderUrl, ImageItem, 0)
  }

  /** `files.map(...)`; the k-th item gets the UUID `uuid(k)`. */
  function ItemsOf(files: seq<UploadFile>, uuid: nat -> string, from: nat): (items: seq<StoryItem>)
    ensures |items| == |files|
    ensures forall k :: 0 <= k < |files| ==> items[k] == ItemOf(files[k], uuid(from + k))
    decreases |files|
  {
    if files == [] then [] else [ItemOf(files[0], uuid(from))] + ItemsOf(files[1..], uuid, from + 1)
  }

  /** POST. `formParses` is false when reading the form fails; `userId` is
      `""` when it is missing. The story takes the UUID after the items'. */
  function CreateStory(formParses: bool, userId: string, files: seq<UploadFile>,
                       uuid: nat -> string, now: string): (r: Response)
    ensures !formParses ==> r == Rejected(Failed)
    ensures formParses && userId == "" ==> r == Rejected(MissingUserId)
    ensures formParses && userId != "" && |files| == 0 ==> r == Rejected(NoFiles)
    ensures formParses && userId != "" && |files| > MaxFiles ==> r == Rejected(TooManyFiles)
    ensures r.Created? <==> formParses && userId != "" && 0 < |files| <= MaxFiles
  {
    if !formParses then Rejected(Failed)
    else if userId == "" then Rejected(MissingUserId)
    else if |files| == 0 then Rejected(NoFiles)
    else if |files| > MaxFiles then Rejected(TooManyFiles)
    else Created(Story(uuid(|files|), userId, ItemsOf(files, uuid, 0), now, "general", true, false))
  }

  /** A created story has one item per file, in file order, each a video
      exactly when its file's MIME type starts with 'video/'; it is
      downloadable, not adult, and in the 'general' category. */
  lemma CreatedStoryShape(userId: string, files: seq<UploadFile>, uuid: nat -> string, now: string)
    requires userId != "" && 0 < |files| <= MaxFiles
    ensures var s := CreateStory(true, userId, files, uuid, now).story;
      |s.items| == |files| && s.userId == userId
      && (forall k :: 0 <= k < |files| ==> (s.items[k].itemType == VideoItem <==> IsVideo(files[k])))
      && (forall k :: 0 <= k < |files| ==> s.items[k].duration == (if IsVideo(files[k]) then 10 else 0))
      && s.downloadable && !s.isAdult && s.category == "general"
  {
  }
}
