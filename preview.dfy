/** The confirmation screen shown before a profile is saved
    (internal/tui/preview.go): a yes/no selector over the record. Rendering
    is outside the model. */
module Preview {
  import opened Models

  /** The keys that move the selector to "yes" and to "no". */
  predicate IsLeftKey(key: string) {
    key == "left" || key == "h"
  }

  predicate IsRightKey(key: string) {
    key == "right" || key == "l"
  }

  class PreviewModel {
    const config: Config
    var confirmed: bool
    var cancelled: bool
    var selectedYes: bool

    /** The screen has told the program to quit. */
    predicate Terminated()
      reads this
    {
      confirmed || cancelled
    }

    /** `NewPreviewModel`: "yes" is preselected and nothing is decided. */
    constructor (config: Config)
      ensures this.config == config
      ensures selectedYes && !confirmed && !cancelled
    {
      this.config := config;
      selectedYes := true;
      confirmed := false;
      cancelled := false;
    }

    /** `Update` for one key, until the screen terminates. ctrl+c cancels
        whatever is selected; left/h and right/l move the selector; Enter
        decides by the selector; other keys change nothing. On termination
        exactly one of `confirmed` and `cancelled` holds. */
    method Update(key: string) returns (quit: bool)
      requires !Terminated()
      modifies this
      ensures quit <==> Terminated()
      ensures Terminated() ==> confirmed != cancelled
      ensures key == "ctrl+c" ==> cancelled && !confirmed && selectedYes == old(selectedYes)
      ensures IsLeftKey(key) ==> selectedYes && !Terminated()
      ensures IsRightKey(key) ==> !selectedYes && !Terminated()
      ensures key == "enter" ==>
                confirmed == old(selectedYes) && cancelled == !old(selectedYes) && selectedYes == old(selectedYes)
      ensures key !in {"ctrl+c", "left", "h", "right", "l", "enter"} ==>
                !Terminated() && selectedYes == old(selectedYes)
    {
      quit := false;
      if key == "ctrl+c" {
        cancelled := true;
        return true;
      } else if key == "left" || key == "h" {
        selectedYes := true;
      } else if key == "right" || key == "l" {
        selectedYes := false;
      } else if key == "enter" {
        if selectedYes {
          confirmed := true;
        } else {
          cancelled := true;
        }
        return true;
      }
    }

    /** `IsConfirmed`. */
    function IsConfirmed(): (r: bool)
      reads this
      ensures r == confirmed
    {
      confirmed
    }

    /** `IsCancelled`. */
    function IsCancelled(): (r: bool)
      reads this
      ensures r == cancelled
    {
      cancelled
    }
  }
}
