/** The story viewer: a two-level cursor (story, item within the story)
    with a progress value, moved by `handleNext` and `handlePrevious`.
    Calls of `onClose` are counted. The progress timer is not modelled;
    when it runs out it makes the same move as `handleNext`. */
module StoryViewer {
  import opened Wrappers

  datatype MediaType = Image | Video

  /** `duration` is in seconds, for videos. */
  datatype StoryItem = StoryItem(id: string, url: string, mediaType: MediaType, duration: Option<int>)

  datatype Story = Story(id: string, userId: string, items: seq<StoryItem>)

  /** How long an item stays on screen, in milliseconds: a video's
      duration, or 10 s when it is missing or 0, and 5 s for an image. */
  function DisplayMillis(item: StoryItem): (ms: int)
    ensures item.mediaType == Image ==> ms == 5000
    ensures item.mediaType == Video && item.duration.Some? && item.duration.value != 0 ==>
      ms == item.duration.value * 1000
    ensures item.mediaType == Video && (item.duration.None? || item.duration.value == 0) ==> ms == 10000
  {
    if item.mediaType == Video then
      (if item.duration.Some? && item.duration.value != 0 then item.duration.value else 10) * 1000
    else 5000
  }

  /** The viewer's state. The item index is an int: moving back onto a
      story without items leaves it at -1. */
  datatype Cursor = Cursor(story: int, item: int, progress: int, closeCalls: nat)

  predicate InRange(stories: seq<Story>, c: Cursor)
  {
    0 <= c.story < |stories| && 0 <= c.item < |stories[c.story].items|
  }

  /** `handleNext`: the next item of this story, else the first item of
      the next story, else a call of `onClose` with the position kept. */
  function Next(stories: seq<Story>, c: Cursor): (r: Cursor)
    requires 0 <= c.story < |stories|
    ensures 0 <= r.story < |stories|
    ensures c.item + 1 < |stories[c.story].items| ==>
      r.story == c.story && r.item == c.item + 1 && r.progress == 0 && r.closeCalls == c.closeCalls
    ensures c.item + 1 >= |stories[c.story].items| && c.story + 1 < |stories| ==>
      r.story == c.story + 1 && r.item == 0 && r.progress == 0 && r.closeCalls == c.closeCalls
    ensures c.item + 1 >= |stories[c.story].items| && c.story + 1 == |stories| ==>
      r.story == c.story && r.item == c.item && r.progress == c.progress && r.closeCalls == c.closeCalls + 1
  {
    if c.item < |stories[c.story].items| - 1 then c.(item := c.item + 1, progress := 0)
    else if c.story < |stories| - 1 then c.(story := c.story + 1, item := 0, progress := 0)
    else c.(closeCalls := c.closeCalls + 1)
  }

  /** `handlePrevious`: the previous item of this story, else the last
      item of the previous story, else nothing at all. */
  function Previous(stories: seq<Story>, c: Cursor): (r: Cursor)
    requires 0 <= c.story < |stories|
    ensures 0 <= r.story < |stories| && r.closeCalls == c.closeCalls
    ensures c.item > 0 ==> r.story == c.story && r.item == c.item - 1 && r.progress == 0
    ensures c.item <= 0 && c.story > 0 ==>
      r.story == c.story - 1 && r.item == |stories[c.story - 1].items| - 1 && r.progress == 0
    ensures c.item <= 0 && c.story == 0 ==> r == c
  {
    if c.item > 0 then c.(item := c.item - 1, progress := 0)
    else if c.story > 0 then c.(story := c.story - 1, item := |stories[c.story - 1].items| - 1, progress := 0)
    else c
  }

  class Viewer {
    const stories: seq<Story>
    var currentStoryIndex: int
    var currentItemIndex: int
    var progress: int
    var closeCalls: nat

    function State(): Cursor
      reads this
    {
      Cursor(currentStoryIndex, currentItemIndex, progress, closeCalls)
    }

    /** The viewer opened on a story. The source reads
        `stories[initialStoryIndex].items` at once, so the index must be valid. */
    constructor (stories0: seq<Story>, initialStoryIndex: int)
      requires 0 <= initialStoryIndex < |stories0|
      ensures stories == stories0
      ensures State() == Cursor(initialStoryIndex, 0, 0, 0)
    {
      stories := stories0;
      currentStoryIndex := initialStoryIndex;
      currentItemIndex := 0;
      progress := 0;
      closeCalls := 0;
    }

    method HandleNext()
      requires 0 <= currentStoryIndex < |stories|
      modifies this
      ensures State() == Next(stories, old(State()))
    {
      if currentItemIndex < |stories[currentStoryIndex].items| - 1 {
        currentItemIndex := currentItemIndex + 1;
        progress := 0;
      } else if currentStoryIndex < |stories| - 1 {
        currentStoryIndex := currentStoryIndex + 1;
        currentItemIndex := 0;
        progress := 0;
      } else {
        closeCalls := closeCalls + 1;
      }
    }

    method HandlePrevious()
      requires 0 <= currentStoryIndex < |stories|
      modifies this
      ensures State() == Previous(stories, old(State()))
    {
      if currentItemIndex > 0 {
        currentItemIndex := currentItemIndex - 1;
        progress := 0;
      } else if currentStoryIndex > 0 {
        currentItemIndex := |stories[currentStoryIndex - 1].items| - 1;
        currentStoryIndex := currentStoryIndex - 1;
        progress := 0;
      }
    }
  }

  /** Every story has at least one item. */
  predicate NoEmptyStories(stories: seq<Story>)
  {
    forall k :: 0 <= k < |stories| ==> |stories[k].items| > 0
  }

  /** Both moves keep a valid position valid when no story is empty, and
      every move that changes the position resets the progress. */
  lemma MovesStayInRange(stories: seq<Story>, c: Cursor)
    requires NoEmptyStories(stories) && InRange(stories, c)
    ensures InRange(stories, Next(stories, c)) && InRange(stories, Previous(stories, c))
    ensures Next(stories, c).closeCalls == c.closeCalls ==> Next(stories, c).progress == 0
    ensures (Previous(stories, c).story, Previous(stories, c).item) != (c.story, c.item) ==>
      Previous(stories, c).progress == 0
  {
  }

  /** `handleNext` on the last item of the last story only calls `onClose`. */
  lemma NextAtEndCloses(stories: seq<Story>, c: Cursor)
    requires |stories| > 0 && c.story == |stories| - 1 && c.item >= |stories[c.story].items| - 1
    ensures Next(stories, c) == c.(closeCalls := c.closeCalls + 1)
  {
  }

  /** A step forward that does not close is undone by a step back. */
  lemma PreviousUndoesNext(stories: seq<Story>, c: Cursor)
    requires NoEmptyStories(stories) && InRange(stories, c)
    requires Next(stories, c).closeCalls == c.closeCalls
    ensures var back := Previous(stories, Next(stories, c));
      back.story == c.story && back.item == c.item && back.progress == 0
  {
  }

  /** With one item per story the cursor is the single-index cursor of the
      stories page: next moves to the following story or closes after the
      last one, previous moves to the preceding story or stays at the first. */
  lemma SingleItemStoriesAreOneCursor(stories: seq<Story>, index: int)
    requires forall k :: 0 <= k < |stories| ==> |stories[k].items| == 1
    requires 0 <= index < |stories|
    ensures var n := Next(stories, Cursor(index, 0, 0, 0));
      if index < |stories| - 1 then n == Cursor(index + 1, 0, 0, 0) else n == Cursor(index, 0, 0, 1)
    ensures Previous(stories, Cursor(index, 0, 0, 0)) == Cursor(if index > 0 then index - 1 else 0, 0, 0, 0)
  {
  }
}
