/**
 * `lib/store.ts`: the `usePoseStore` zustand store, through which the camera screen publishes
 * the generated pose image. Its two fields are updated in place by two setters, each of which
 * hands zustand's `set` a partial state that is shallow-merged into the current one.
 */
module PoseStore {
  import opened Wrappers

  /** A snapshot of the store's data fields; `null` is `None`. */
  datatype PoseState = PoseState(generatedImage: Option<string>, isGeneratingPose: bool)

  /** A partial state as passed to `set`: a field is either given a new value or not mentioned. */
  datatype Patch = Patch(generatedImage: Option<Option<string>>, isGeneratingPose: Option<bool>)

  /**
   * zustand's `set(partial)`: every field the patch mentions is replaced, the others are kept.
   * An empty partial changes nothing, and a partial naming every field leaves nothing of the
   * old state.
   */
  function Merge(s: PoseState, p: Patch): (r: PoseState)
    ensures p == Patch(None, None) ==> r == s
    ensures p.generatedImage.Some? && p.isGeneratingPose.Some? ==>
      r == PoseState(p.generatedImage.value, p.isGeneratingPose.value)
  {
    PoseState(
      match p.generatedImage case Some(v) => v case None => s.generatedImage,
      match p.isGeneratingPose case Some(v) => v case None => s.isGeneratingPose)
  }

  /** `set({ generatedImage: url })`. */
  function ImagePatch(url: Option<string>): Patch
  {
    Patch(Some(url), None)
  }

  /** `set({ isGeneratingPose: isGenerating })`. */
  function GeneratingPatch(isGenerating: bool): Patch
  {
    Patch(None, Some(isGenerating))
  }

  const InitialState: PoseState := PoseState(None, false)

  /** Applying the same partial state twice is the same as applying it once. */
  lemma MergeIdempotent(s: PoseState, p: Patch)
    ensures Merge(Merge(s, p), p) == Merge(s, p)
  {
  }

  /** The two setters touch different fields, so their order does not matter. */
  lemma SettersCommute(s: PoseState, url: Option<string>, isGenerating: bool)
    ensures Merge(Merge(s, ImagePatch(url)), GeneratingPatch(isGenerating))
        == Merge(Merge(s, GeneratingPatch(isGenerating)), ImagePatch(url))
        == PoseState(url, isGenerating)
  {
  }

  /** A later image replaces an earlier one: only the last `setGeneratedImage` is visible. */
  lemma LastImageWins(s: PoseState, first: Option<string>, second: Option<string>)
    ensures Merge(Merge(s, ImagePatch(first)), ImagePatch(second)) == Merge(s, ImagePatch(second))
  {
  }

  class Store {
    var generatedImage: Option<string>
    var isGeneratingPose: bool

    function State(): PoseState
      reads this
    {
      PoseState(generatedImage, isGeneratingPose)
    }

    /** `create(...)`: no image yet and no generation in progress. */
    constructor ()
      ensures State() == InitialState
    {
      generatedImage := None;
      isGeneratingPose := false;
    }

    /** `setGeneratedImage(url)`: `url` may be null, which clears the image. */
    method SetGeneratedImage(url: Option<string>)
      modifies this
      ensures State() == Merge(old(State()), ImagePatch(url))
      ensures generatedImage == url && isGeneratingPose == old(isGeneratingPose)
    {
      generatedImage := url;
    }

    /** `setIsGeneratingPose(isGenerating)`. */
    method SetIsGeneratingPose(isGenerating: bool)
      modifies this
      ensures State() == Merge(old(State()), GeneratingPatch(isGenerating))
      ensures isGeneratingPose == isGenerating && generatedImage == old(generatedImage)
    {
      isGeneratingPose := isGenerating;
    }
  }

  /**
   * An example sequence of setter calls on a fresh store: mark generation as running, publish
   * an image, mark generation finished. The image stays and the flag is back to false.
   */
  method GenerationRoundTrip(url: string) returns (final: PoseState)
    ensures final == PoseState(Some(url), false)
  {
    var store := new Store();
    store.SetIsGeneratingPose(true);
    store.SetGeneratedImage(Some(url));
    store.SetIsGeneratingPose(false);
    final := store.State();
  }

  /** Calling a setter twice with the same argument leaves the same state as calling it once. */
  method SetImageTwice(store: Store, url: Option<string>) returns (once: PoseState, twice: PoseState)
    modifies store
    ensures once == twice == PoseState(url, old(store.isGeneratingPose))
  {
    store.SetGeneratedImage(url);
    once := store.State();
    store.SetGeneratedImage(url);
    twice := store.State();
  }
}
