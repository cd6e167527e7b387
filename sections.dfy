/** The catalog of waypoints the refactored camera visits: `SECTIONS` and its `Section` type. */
module Sections {

  import opened Vec

  /** Where the camera stands at a waypoint and the point it looks at. */
  datatype CameraPose = CameraPose(position: Vec3, lookAt: Vec3)

  /** One waypoint: its stable id, its titles for the overlay and its camera pose. */
  datatype Section = Section(id: string, title: string, subtitle: string, camera: CameraPose)

  /** `SECTIONS`, in traversal order. */
  const Catalog: seq<Section> := [
    Section("hero", "SREEKANTH", "Creative Developer",
            CameraPose(Vec3(0.0, 0.0, 12.0), Vec3(0.0, 0.0, 0.0))),
    Section("about", "ABOUT", "Who I Am",
            CameraPose(Vec3(10.0, 7.0, 9.0), Vec3(0.0, 4.0, 0.0))),
    Section("skills", "SKILLS", "What I Do",
            CameraPose(Vec3(-6.0, 5.0, 10.0), Vec3(0.0, 5.0, 0.0))),
    Section("projects", "PROJECTS", "What I Build",
            CameraPose(Vec3(0.0, 10.0, 8.0), Vec3(0.0, 10.0, 0.0))),
    Section("contact", "CONTACT", "Let's Connect",
            CameraPose(Vec3(0.0, 15.0, 10.0), Vec3(0.0, 15.0, 0.0)))
  ]

  /** `SECTIONS.length`. */
  function Count(): (n: nat)
    ensures n == |Catalog|
    ensures n >= 2
  {
    |Catalog|
  }

  /** The catalog has five waypoints, so a bracketing pair always exists, and its order runs from
      'hero' to 'contact'. */
  lemma CatalogShape()
    ensures Count() == 5
    ensures Catalog[0].id == "hero" && Catalog[Count() - 1].id == "contact"
    ensures [Catalog[0].id, Catalog[1].id, Catalog[2].id, Catalog[3].id, Catalog[4].id]
         == ["hero", "about", "skills", "projects", "contact"]
  {
  }

  /** No two waypoints share an id. */
  lemma IdsDistinct()
    ensures forall i, j :: 0 <= i < j < |Catalog| ==> Catalog[i].id != Catalog[j].id
  {
  }
}
