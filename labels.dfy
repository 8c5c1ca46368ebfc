/**
 * The display tables of frontend/src/App.js: the style presets offered in
 * the style selectors, and the labels shown under each generated image.
 */
module Labels {
  import opened Wrappers

  /** One entry of the style selector; the description is display text only and is not modelled. */
  datatype Preset = Preset(value: string, name: string)

  const StylePresets: seq<Preset> := [
    Preset("photographic", "Photographic"),
    Preset("digital-art", "Digital Art"),
    Preset("anime", "Anime"),
    Preset("comic-book", "Comic Book"),
    Preset("fantasy-art", "Fantasy Art"),
    Preset("line-art", "Line Art"),
    Preset("analog-film", "Analog Film"),
    Preset("cinematic", "Cinematic"),
    Preset("3d-model", "3D Model"),
    Preset("pixel-art", "Pixel Art"),
    Preset("tile-texture", "Tile Texture"),
    Preset("origami", "Origami"),
    Preset("watercolor", "Watercolor"),
    Preset("oil-painting", "Oil Painting"),
    Preset("sketch", "Sketch")
  ]

  /** `Array.prototype.find` on the presets: the first entry with the value, if any. */
  function FindPreset(presets: seq<Preset>, value: string): (r: Option<nat>)
    ensures r.Some? ==> r.value < |presets| && presets[r.value].value == value
    ensures r.Some? ==> forall j :: 0 <= j < r.value ==> presets[j].value != value
    ensures r.None? <==> forall j :: 0 <= j < |presets| ==> presets[j].value != value
  {
    if |presets| == 0 then None
    else if presets[0].value == value then Some(0)
    else match FindPreset(presets[1..], value)
      case None => None
      case Some(k) => Some(k + 1)
  }

  /** No two presets share a value, so a value names one preset. */
  lemma PresetValuesDistinct()
    ensures forall i, j :: 0 <= i < j < |StylePresets| ==> StylePresets[i].value != StylePresets[j].value
  {
  }

  /** `getStylePresetLabel`: the preset's label, or the value itself when no preset has it. */
  function StylePresetLabel(value: string): (shown: string)
    ensures forall i :: 0 <= i < |StylePresets| && StylePresets[i].value == value ==> shown == StylePresets[i].name
    ensures (forall i :: 0 <= i < |StylePresets| ==> StylePresets[i].value != value) ==> shown == value
  {
    PresetValuesDistinct();
    match FindPreset(StylePresets, value)
    case Some(k) => StylePresets[k].name
    case None => value
  }

  // The platform labels are written in pieces: comparing them with other
  // texts built the same way is cheap to prove.
  const MobileLabel := "Mobile" + " (" + "768" + "×" + "1024" + ")"
  const DesktopLabel := "Desktop" + " (" + "1024" + "×" + "768" + ")"
  const WebLabel := "Web" + " (" + "1024" + "×" + "1024" + ")"

  /** `getPlatformLabel`: any platform other than mobile and desktop is shown as web. */
  function PlatformLabel(platform: string): (shown: string)
    ensures platform == "mobile" ==> shown == MobileLabel
    ensures platform == "desktop" ==> shown == DesktopLabel
    ensures platform != "mobile" && platform != "desktop" ==> shown == WebLabel
  {
    match platform
    case "mobile" => MobileLabel
    case "desktop" => DesktopLabel
    case _ => WebLabel
  }

  /** The three labels as the page shows them. */
  lemma PlatformLabelTexts()
    ensures MobileLabel == "Mobile (768×1024)"
    ensures DesktopLabel == "Desktop (1024×768)"
    ensures WebLabel == "Web (1024×1024)"
  {
  }
}
