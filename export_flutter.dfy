/**
 * The Flutter exporter (src/utils/exportDesignFlutter.ts): the same document as the design
 * exporter, built by its own object literal and with no download step.
 */
module FlutterExport {

  import opened Design
  import DesignExport

  /** `exportDesignFlutter`: exactly the design exporter's `designData`. */
  function ExportDesignFlutter(st: RoomState, timestamp: string): (d: DesignExport.DesignData)
    ensures d == DesignExport.ExportDesign(st, timestamp)
  {
    var views := seq(|st.views|, i requires 0 <= i < |st.views| =>
      DesignExport.ExportedView(st.views[i].id, st.views[i].name,
        seq(|st.views[i].components|, j requires 0 <= j < |st.views[i].components| =>
          var c := st.views[i].components[j];
          Component(c.id, c.kind, c.x, c.y, c.width, c.height, c.properties))));
    assert forall i :: 0 <= i < |st.views| ==> views[i] == DesignExport.ExportView(st.views[i]) by {
      forall i | 0 <= i < |st.views| ensures views[i] == DesignExport.ExportView(st.views[i]) {
        assert views[i].components == st.views[i].components;
      }
    }
    DesignExport.DesignData("1.0", timestamp,
      DesignExport.ExportedRoom(
        if st.room.Some? && st.room.value.id != "" then st.room.value.id else "",
        if st.room.Some? && st.room.value.name != "" then st.room.value.name else "Untitled Design",
        views))
  }
}
