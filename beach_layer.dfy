/**
 * The zoom rule of the map's beach layer: priority beaches always show, and otherwise
 * the map reveals beaches with less researched data as the user zooms in.
 */
module BeachLayer {
  import opened Wrappers
  import opened Seqs
  import opened Beach

  /** `shouldShowAtZoom`: guarded returns over priority, then the zoom band. */
  function ShouldShowAtZoom(zoom: real, beach: Properties): (show: bool)
    ensures IsPriority(beach) ==> show
    ensures !show ==> zoom < 12.0 && beach.dataStatus != Some(COMPLETE)
  {
    if IsPriority(beach) then true
    else if zoom < 9.0 then beach.dataStatus == Some(COMPLETE)
    else if zoom < 12.0 then beach.dataStatus != Some(API_ONLY)
    else true
  }

  /** The decision table, band by band, for a beach outside the priority set. */
  lemma ZoomBands(zoom: real, beach: Properties)
    requires !IsPriority(beach)
    ensures zoom < 9.0 ==> (ShouldShowAtZoom(zoom, beach) <==> beach.dataStatus == Some(COMPLETE))
    ensures 9.0 <= zoom < 12.0 ==> (ShouldShowAtZoom(zoom, beach) <==> beach.dataStatus != Some(API_ONLY))
    ensures 12.0 <= zoom ==> ShouldShowAtZoom(zoom, beach)
  {
  }

  /** Zooming in never hides a beach. */
  lemma VisibilityMonotone(zoom: real, closer: real, beach: Properties)
    requires zoom <= closer && ShouldShowAtZoom(zoom, beach)
    ensures ShouldShowAtZoom(closer, beach)
  {
  }

  function ShownAt(zoom: real): Feature -> bool {
    (f: Feature) => ShouldShowAtZoom(zoom, f.properties)
  }

  /** The `filteredFeatures` memo: the features visible at `zoom`, in input order. */
  function VisibleFeatures(zoom: real, features: seq<Feature>): (visible: seq<Feature>)
    ensures forall f :: f in visible <==> f in features && ShouldShowAtZoom(zoom, f.properties)
  {
    Filter(ShownAt(zoom), features)
  }

  /** The visible list is an order-preserving subsequence of the input. */
  lemma VisibleIsSubsequence(zoom: real, features: seq<Feature>)
    ensures IsSubsequence(VisibleFeatures(zoom, features), features)
  {
    FilterIsSubsequence(ShownAt(zoom), features);
  }

  /** What is visible at one zoom is still visible, in the same order, further in. */
  lemma VisibleGrowsWithZoom(zoom: real, closer: real, features: seq<Feature>)
    requires zoom <= closer
    ensures IsSubsequence(VisibleFeatures(zoom, features), VisibleFeatures(closer, features))
  {
    forall f
      ensures ShownAt(zoom)(f) ==> ShownAt(closer)(f)
    {
      if ShownAt(zoom)(f) {
        VisibilityMonotone(zoom, closer, f.properties);
      }
    }
    FilterMonotone(ShownAt(closer), ShownAt(zoom), features);
  }

  /** From zoom 12 on, the layer shows the whole collection. */
  lemma EverythingAtStreetLevel(zoom: real, features: seq<Feature>)
    requires 12.0 <= zoom
    ensures VisibleFeatures(zoom, features) == features
  {
    FilterAll(ShownAt(zoom), features);
  }
}
